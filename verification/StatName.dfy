/** The statistics user names of internal/statname: `user.rwib.<base64url of the inbound tag>`.
    Go strings are byte strings; a byte is a char below 256. */
module StatName {
  import opened Common

  type Octets = s: string | forall i :: 0 <= i < |s| ==> s[i] as int < 256

  const SEPARATOR := ".rwib."

  // ---------------------------------------------------------------- base64url without padding (RFC 4648)

  type Sextet = d: int | 0 <= d < 64

  function Char(d: Sextet): char {
    if d < 26 then (65 + d) as char
    else if d < 52 then (71 + d) as char
    else if d < 62 then (d - 4) as char
    else if d == 62 then '-' else '_'
  }

  function Digit(c: char): Option<Sextet> {
    if 'A' <= c <= 'Z' then Some(c as int - 65)
    else if 'a' <= c <= 'z' then Some(c as int - 71)
    else if '0' <= c <= '9' then Some(c as int + 4)
    else if c == '-' then Some(62)
    else if c == '_' then Some(63)
    else None
  }

  lemma DigitOfChar(d: Sextet)
    ensures Digit(Char(d)) == Some(d)
  {
  }

  function Encode(t: Octets): string {
    if |t| == 0 then ""
    else if |t| == 1 then
      var a := t[0] as int;
      [Char(a / 4), Char(a % 4 * 16)]
    else if |t| == 2 then
      var a, b := t[0] as int, t[1] as int;
      [Char(a / 4), Char(a % 4 * 16 + b / 16), Char(b % 16 * 4)]
    else
      var a, b, c := t[0] as int, t[1] as int, t[2] as int;
      [Char(a / 4), Char(a % 4 * 16 + b / 16), Char(b % 16 * 4 + c / 64), Char(c % 64)] + Encode(t[3..])
  }

  /** Decoding of text that holds no line breaks; the unused low bits of the last digit are ignored. */
  function DecodeDigits(s: string): Option<Octets> {
    if |s| == 0 then Some("")
    else if |s| == 1 then None
    else
      match (Digit(s[0]), Digit(s[1]))
      case (Some(p), Some(q)) =>
        var first := (p * 4 + q / 16) as char;
        if |s| == 2 then Some([first])
        else
          (match Digit(s[2])
           case None => None
           case Some(r) =>
             var second := (q % 16 * 16 + r / 4) as char;
             if |s| == 3 then Some([first, second])
             else
               match (Digit(s[3]), DecodeDigits(s[4..]))
               case (Some(u), Some(rest)) => Some([first, second, (r % 4 * 64 + u) as char] + rest)
               case _ => None)
      case _ => None
  }

  /** The standard decoder skips carriage returns and line feeds wherever they stand. */
  function WithoutBreaks(s: string): string {
    if s == "" then ""
    else (if s[0] == '\r' || s[0] == '\n' then "" else [s[0]]) + WithoutBreaks(s[1..])
  }

  function Decode(s: string): Option<Octets> { DecodeDigits(WithoutBreaks(s)) }

  /** Four digits give back the three bytes they spell. */
  lemma DecodeTriple(a: int, b: int, c: int, rest: string)
    requires 0 <= a < 256 && 0 <= b < 256 && 0 <= c < 256 && DecodeDigits(rest).Some?
    ensures DecodeDigits([Char(a / 4), Char(a % 4 * 16 + b / 16), Char(b % 16 * 4 + c / 64), Char(c % 64)] + rest)
         == Some([a as char, b as char, c as char] + DecodeDigits(rest).value)
  {
    var p, q, r, u := a / 4, a % 4 * 16 + b / 16, b % 16 * 4 + c / 64, c % 64;
    DigitOfChar(p);
    DigitOfChar(q);
    DigitOfChar(r);
    DigitOfChar(u);
    var s := [Char(p), Char(q), Char(r), Char(u)] + rest;
    assert s[4..] == rest;
    assert p * 4 + q / 16 == a && q % 16 * 16 + r / 4 == b && r % 4 * 64 + u == c;
  }

  lemma DecodePair(a: int, b: int)
    requires 0 <= a < 256 && 0 <= b < 256
    ensures DecodeDigits([Char(a / 4), Char(a % 4 * 16 + b / 16), Char(b % 16 * 4)]) == Some([a as char, b as char])
  {
    var p, q, r := a / 4, a % 4 * 16 + b / 16, b % 16 * 4;
    DigitOfChar(p);
    DigitOfChar(q);
    DigitOfChar(r);
    assert p * 4 + q / 16 == a && q % 16 * 16 + r / 4 == b;
  }

  lemma DecodeSingle(a: int)
    requires 0 <= a < 256
    ensures DecodeDigits([Char(a / 4), Char(a % 4 * 16)]) == Some([a as char])
  {
    var p, q := a / 4, a % 4 * 16;
    DigitOfChar(p);
    DigitOfChar(q);
    assert p * 4 + q / 16 == a;
  }

  /** At most two bytes. */
  lemma EncodeShort(t: Octets) returns (s: string)
    requires 1 <= |t| <= 2
    ensures Encode(t) == s && DecodeDigits(s) == Some(t)
  {
    var a := t[0] as int;
    if |t| == 2 {
      var b := t[1] as int;
      s := [Char(a / 4), Char(a % 4 * 16 + b / 16), Char(b % 16 * 4)];
      DecodePair(a, b);
      assert t == [a as char, b as char];
    } else {
      s := [Char(a / 4), Char(a % 4 * 16)];
      DecodeSingle(a);
      assert t == [a as char];
    }
  }

  /** The first three bytes. */
  lemma EncodeLong(t: Octets) returns (head: string)
    requires |t| >= 3
    ensures Encode(t) == head + Encode(t[3..])
    ensures forall rest :: DecodeDigits(rest).Some? ==>
              DecodeDigits(head + rest) == Some(t[..3] + DecodeDigits(rest).value)
  {
    var a, b, c := t[0] as int, t[1] as int, t[2] as int;
    head := [Char(a / 4), Char(a % 4 * 16 + b / 16), Char(b % 16 * 4 + c / 64), Char(c % 64)];
    assert t[..3] == [a as char, b as char, c as char];
    forall rest | DecodeDigits(rest).Some? ensures DecodeDigits(head + rest) ==
        Some(t[..3] + DecodeDigits(rest).value) {
      DecodeTriple(a, b, c, rest);
    }
  }

  lemma {:induction false} DecodeDigitsOfEncode(t: Octets)
    ensures DecodeDigits(Encode(t)) == Some(t)
  {
    if |t| >= 3 {
      DecodeDigitsOfEncode(t[3..]);
      var head := EncodeLong(t);
      assert DecodeDigits(head + Encode(t[3..])) == Some(t[..3] + t[3..]);
      assert t[..3] + t[3..] == t;
    } else if |t| > 0 {
      var s := EncodeShort(t);
    }
  }

  lemma {:induction false} EncodeIsDigits(t: Octets)
    ensures forall i :: 0 <= i < |Encode(t)| ==> Digit(Encode(t)[i]).Some?
  {
    if |t| >= 3 {
      EncodeIsDigits(t[3..]);
    }
  }

  lemma {:induction false} DigitsHaveNoBreaks(s: string)
    requires forall i :: 0 <= i < |s| ==> Digit(s[i]).Some?
    ensures WithoutBreaks(s) == s
  {
    if s != "" {
      assert Digit(s[0]).Some?;
      DigitsHaveNoBreaks(s[1..]);
    }
  }

  /** base64url round trip, on every byte string. */
  lemma DecodeOfEncode(t: Octets)
    ensures Decode(Encode(t)) == Some(t)
    ensures Encode(t) == "" <==> t == ""
  {
    EncodeIsDigits(t);
    DigitsHaveNoBreaks(Encode(t));
    DecodeDigitsOfEncode(t);
  }

  lemma {:induction false} BreaksKeepOthers(s: string, i: nat)
    requires i < |s| && s[i] != '\r' && s[i] != '\n'
    ensures s[i] in WithoutBreaks(s)
  {
    if i > 0 {
      BreaksKeepOthers(s[1..], i - 1);
    }
  }

  lemma {:induction false} DecodeDigitsRejects(s: string, i: nat)
    requires i < |s| && Digit(s[i]).None?
    ensures DecodeDigits(s).None?
  {
    if i >= 4 {
      DecodeDigitsRejects(s[4..], i - 4);
    }
  }

  /** A dot is not a base64url digit, so no text with a dot decodes. */
  lemma DotIsRejected(s: string, i: nat)
    requires i < |s| && s[i] == '.'
    ensures Decode(s).None?
  {
    BreaksKeepOthers(s, i);
    var t := WithoutBreaks(s);
    var j :| 0 <= j < |t| && t[j] == '.';
    DecodeDigitsRejects(t, j);
  }

  // ---------------------------------------------------------------- the codec

  function UserInbound(userID: string, tag: Octets): string { userID + SEPARATOR + Encode(tag) }

  predicate OccursAt(value: string, i: nat) { i + 6 <= |value| && value[i..i + 6] == SEPARATOR }

  /** The first occurrence of the separator from `i` on. */
  function Find(value: string, i: nat): (r: Option<nat>)
    requires i <= |value|
    ensures r.Some? ==> i <= r.value && OccursAt(value, r.value) && forall j :: i <= j < r.value ==> !OccursAt(value, j)
    ensures r.None? ==> forall j :: i <= j ==> !OccursAt(value, j)
    decreases |value| - i
  {
    if OccursAt(value, i) then Some(i)
    else if i == |value| then None
    else Find(value, i + 1)
  }

  function ParseUserInbound(value: string): Option<(string, Octets)> {
    match Find(value, 0)
    case None => None
    case Some(i) =>
      var left, right := value[..i], value[i + 6..];
      if left == "" || right == "" then None
      else
        match Decode(right)
        case None => None
        case Some(tag) => if tag == "" then None else Some((left, tag))
  }

  function UserID(value: string): string {
    match ParseUserInbound(value)
    case Some((user, _)) => user
    case None => value
  }

  ghost predicate Contains(s: string) { exists i: nat :: OccursAt(s, i) }

  ghost predicate EndsInRwib(s: string) { |s| >= 5 && s[|s| - 5..] == ".rwib" }

  /** The user names the codec can carry. */
  ghost predicate Plain(userID: string) { userID != "" && !Contains(userID) && !EndsInRwib(userID) }

  /** The separator overlaps itself in its end dot only: an occurrence that starts inside the user
      name lies in it, or needs the name to end in ".rwib". */
  lemma OccurrenceInName(userID: string, rest: string, i: nat)
    requires i < |userID|
    ensures OccursAt(userID + SEPARATOR + rest, i) <==>
            OccursAt(userID, i) || (EndsInRwib(userID) && i == |userID| - 5)
  {
    var value := userID + SEPARATOR + rest;
    if i + 6 <= |userID| {
      assert value[i..i + 6] == userID[i..i + 6];
    } else {
      var k := |userID| - i;
      assert forall j :: i <= j < |userID| ==> value[j] == userID[j];
      if k == 5 {
        assert value[i..i + 6] == userID[i..] + ".";
        assert userID[i..] == userID[|userID| - 5..];
        assert SEPARATOR == ".rwib" + ".";
        if value[i..i + 6] == SEPARATOR {
          assert userID[i..] == value[i..i + 6][..5] == ".rwib";
        }
      } else {
        assert value[i + k] == '.' && SEPARATOR[k] != '.';
        assert value[i..i + 6][k] == value[i + k];
      }
    }
  }

  lemma EmbeddedSeparator(userID: string, rest: string)
    ensures OccursAt(userID + SEPARATOR + rest, |userID|)
    ensures Contains(userID) || EndsInRwib(userID) <==>
              exists i: nat :: i < |userID| && OccursAt(userID + SEPARATOR + rest, i)
  {
    var value := userID + SEPARATOR + rest;
    assert value[|userID|..|userID| + 6] == SEPARATOR;
    if Contains(userID) {
      var i: nat :| OccursAt(userID, i);
      OccurrenceInName(userID, rest, i);
    } else if EndsInRwib(userID) {
      OccurrenceInName(userID, rest, |userID| - 5);
    } else {
      forall i: nat | i < |userID| ensures !OccursAt(value, i) {
        OccurrenceInName(userID, rest, i);
      }
    }
  }

  /** When the separator is found inside the user name, the rest still holds the real separator's
      last dot and does not decode. */
  lemma EarlySeparatorFails(userID: string, tag: Octets, i: nat)
    requires i < |userID| && Find(UserInbound(userID, tag), 0) == Some(i)
    ensures ParseUserInbound(UserInbound(userID, tag)).None?
  {
    var value := UserInbound(userID, tag);
    var right, dot := value[i + 6..], |userID| - i - 1;
    assert right[dot] == value[|userID| + 5] == SEPARATOR[5];
    DotIsRejected(right, dot);
  }

  /** Printing then parsing gives back exactly what went in when the user name is plain and the tag
      is not empty, and nothing at all otherwise. */
  lemma ParseOfUserInbound(userID: string, tag: Octets)
    ensures ParseUserInbound(UserInbound(userID, tag)) ==
            if Plain(userID) && tag != "" then Some((userID, tag)) else None
  {
    var value, n := UserInbound(userID, tag), |userID|;
    EmbeddedSeparator(userID, Encode(tag));
    var i := Find(value, 0).value;
    assert i <= n;
    if i < n {
      EarlySeparatorFails(userID, tag, i);
    } else {
      DecodeOfEncode(tag);
      assert value[..n] == userID && value[n + 6..] == Encode(tag);
    }
  }

  /** A parsed user name is plain. */
  lemma ParsedIsPlain(value: string)
    requires ParseUserInbound(value).Some?
    ensures Plain(UserID(value))
  {
    var i := Find(value, 0).value;
    SplitAtSeparator(value, i);
    EmbeddedSeparator(value[..i], value[i + 6..]);
  }

  lemma SplitAtSeparator(value: string, i: nat)
    requires OccursAt(value, i)
    ensures value == value[..i] + SEPARATOR + value[i + 6..]
  {
    assert value == value[..i] + value[i..i + 6] + value[i + 6..];
  }

  /** What encodeSingBoxConfigUsers makes of one user name. */
  function EncodedName(name: string, tag: Octets): string {
    var userID := UserID(name);
    if userID == "" then name else UserInbound(userID, tag)
  }

  /** Encoding a configuration's users a second time changes nothing exactly when the user ID is plain. */
  lemma EncodedNameIdempotent(name: string, tag: Octets)
    requires tag != ""
    ensures EncodedName(EncodedName(name, tag), tag) == EncodedName(name, tag) <==>
              UserID(name) == "" || Plain(UserID(name))
  {
    var userID := UserID(name);
    if userID != "" {
      ParseOfUserInbound(userID, tag);
      if !Plain(userID) {
        var once := UserInbound(userID, tag);
        assert UserID(once) == once && |UserInbound(once, tag)| > |once|;
      }
    }
  }
}
