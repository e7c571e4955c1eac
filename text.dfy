/** Decimal text for integers, substring search, and the part of the C
    library's formatted scanning (`%d`, `%f` on integral numerals) that the
    level file relies on. */
module Text {
  import opened Seqs

  datatype Option<T> = None | Some(value: T)

  /** The characters `isspace` accepts in the C locale. */
  predicate IsSpace(c: char) {
    c == ' ' || c == '\t' || c == '\n' || c == '\r' || c == '\U{B}' || c == '\U{C}'
  }

  predicate IsDigit(c: char) {
    '0' <= c <= '9'
  }

  function DigitValue(c: char): (d: nat)
    requires IsDigit(c)
    ensures d < 10
  {
    c as int - '0' as int
  }

  function DigitChar(d: nat): (c: char)
    requires d < 10
    ensures IsDigit(c) && DigitValue(c) == d
  {
    ('0' as int + d) as char
  }

  predicate AllDigits(s: string) {
    forall i :: 0 <= i < |s| ==> IsDigit(s[i])
  }

  /** Shortest decimal numeral of `n`, without sign or leading zeros. */
  function NatText(n: nat): (s: string)
    ensures |s| > 0 && AllDigits(s)
  {
    if n < 10 then [DigitChar(n)] else NatText(n / 10) + [DigitChar(n % 10)]
  }

  /** The value of a numeral, most significant digit first. */
  function DigitsValue(s: string): nat
    requires AllDigits(s)
  {
    if s == [] then 0 else 10 * DigitsValue(s[..|s| - 1]) + DigitValue(s[|s| - 1])
  }

  lemma {:induction false} NatTextValue(n: nat)
    ensures DigitsValue(NatText(n)) == n
  {
    if n >= 10 {
      NatTextValue(n / 10);
      var s := NatText(n);
      assert s[..|s| - 1] == NatText(n / 10);
    }
  }

  /** How `operator<<` prints an integral value: a minus sign for negatives. */
  function IntText(n: int): (s: string)
    ensures forall i :: 0 <= i < |s| ==> IsDigit(s[i]) || s[i] == '-'
    ensures |s| > 0 && !IsSpace(s[0])
  {
    if n < 0 then "-" + NatText(-n) else NatText(n)
  }

  /** Length of the longest prefix of `s` made of digits. */
  function DigitRun(s: string): (k: nat)
    ensures k <= |s|
    ensures forall i :: 0 <= i < k ==> IsDigit(s[i])
    ensures k < |s| ==> !IsDigit(s[k])
  {
    if s != [] && IsDigit(s[0]) then 1 + DigitRun(s[1..]) else 0
  }

  /** What a whitespace directive of `scanf` leaves unread. */
  function DropSpaces(s: string): (t: string)
    ensures |t| <= |s|
    ensures t != [] ==> !IsSpace(t[0])
  {
    if s != [] && IsSpace(s[0]) then DropSpaces(s[1..]) else s
  }

  /** The longest run of digits, of which there must be at least one, read
      as a decimal numeral; yields the value and the unread rest. */
  function ScanDigits(u: string): (r: Option<(nat, string)>)
    ensures r.Some? ==> |r.value.1| < |u|
  {
    var k := DigitRun(u);
    if k == 0 then None else Some((DigitsValue(u[..k]), u[k..]))
  }

  /** A `%d` conversion on text that starts with no white space: an optional
      sign, then a run of digits. */
  function ScanSigned(t: string): (r: Option<(int, string)>)
    ensures r.Some? ==> |r.value.1| < |t|
  {
    var signed := t != [] && (t[0] == '-' || t[0] == '+');
    match ScanDigits(if signed then t[1..] else t)
    case None => None
    case Some((v, rest)) => Some((if signed && t[0] == '-' then -(v as int) else v, rest))
  }

  /** One `%d` conversion: leading white space, then a signed numeral.
      Yields the value and the unread rest of the text. */
  function ScanInt(s: string): (r: Option<(int, string)>)
    ensures r.Some? ==> |r.value.1| < |s|
  {
    ScanSigned(DropSpaces(s))
  }

  lemma {:induction false} DropSpacesSuffix(s: string)
    ensures DropSpaces(s) == s[|s| - |DropSpaces(s)|..]
    ensures forall i :: 0 <= i < |s| - |DropSpaces(s)| ==> IsSpace(s[i])
  {
    if s != [] && IsSpace(s[0]) {
      DropSpacesSuffix(s[1..]);
      forall i | 1 <= i < |s| - |DropSpaces(s)| ensures IsSpace(s[i]) {
        assert s[i] == s[1..][i - 1];
      }
    }
  }

  lemma ScanSignedSuffix(t: string)
    ensures var r := ScanSigned(t);
      r.Some? ==> r.value.1 == t[|t| - |r.value.1|..] && (r.value.1 == [] || !IsDigit(r.value.1[0]))
  {
    var signed := t != [] && (t[0] == '-' || t[0] == '+');
    var u := if signed then t[1..] else t;
    var k := DigitRun(u);
    if k > 0 {
      assert u[k..] == t[|t| - |u[k..]|..];
    }
  }

  /** What a `%d` conversion reads is a prefix of the text: white space,
      then the longest numeral there; the rest is left unread and does not
      start with a digit. */
  lemma ScanIntSuffix(s: string)
    ensures var r := ScanInt(s);
      r.Some? ==> r.value.1 == s[|s| - |r.value.1|..] && (r.value.1 == [] || !IsDigit(r.value.1[0]))
    ensures var r := ScanInt(s);
      r.None? <==> (var t := DropSpaces(s);
        var u := if t != [] && (t[0] == '-' || t[0] == '+') then t[1..] else t;
        u == [] || !IsDigit(u[0]))
  {
    DropSpacesSuffix(s);
    ScanSignedSuffix(DropSpaces(s));
  }

  lemma ScanIntAfterSpace(s: string)
    ensures ScanInt(" " + s) == ScanInt(s)
  {
    assert (" " + s)[1..] == s;
    assert DropSpaces(" " + s) == DropSpaces(s);
  }

  /** The digit run of a numeral followed by a non-digit is the numeral. */
  lemma {:induction false} DigitRunOfNumeral(ds: string, rest: string)
    requires AllDigits(ds)
    requires rest == [] || !IsDigit(rest[0])
    ensures DigitRun(ds + rest) == |ds|
  {
    if ds != [] {
      assert (ds + rest)[1..] == ds[1..] + rest;
      DigitRunOfNumeral(ds[1..], rest);
    }
  }

  lemma ScanDigitsNumeral(ds: string, rest: string)
    requires AllDigits(ds) && ds != []
    requires rest == [] || !IsDigit(rest[0])
    ensures ScanDigits(ds + rest) == Some((DigitsValue(ds), rest))
  {
    DigitRunOfNumeral(ds, rest);
    assert (ds + rest)[..|ds|] == ds;
    assert (ds + rest)[|ds|..] == rest;
  }

  lemma ScanNatText(m: nat, rest: string)
    requires rest == [] || !IsDigit(rest[0])
    ensures ScanInt(NatText(m) + rest) == Some((m as int, rest))
  {
    var ds := NatText(m);
    NatTextValue(m);
    ScanDigitsNumeral(ds, rest);
    assert (ds + rest)[0] == ds[0];
    assert DropSpaces(ds + rest) == ds + rest;
  }

  /** A `%d` conversion on text that starts with a minus sign. */
  lemma ScanMinus(u: string)
    ensures ScanInt("-" + u) ==
      match ScanDigits(u)
      case None => None
      case Some((v, r)) => Some((-(v as int), r))
  {
    assert ("-" + u)[0] == '-';
    assert DropSpaces("-" + u) == "-" + u;
    assert ("-" + u)[1..] == u;
  }

  lemma ScanNegatedText(m: nat, rest: string)
    requires rest == [] || !IsDigit(rest[0])
    ensures ScanInt("-" + (NatText(m) + rest)) == Some((-(m as int), rest))
  {
    NatTextValue(m);
    ScanDigitsNumeral(NatText(m), rest);
    ScanMinus(NatText(m) + rest);
  }

  /** Scanning what `IntText` printed gives the value back. */
  lemma ScanIntText(n: int, rest: string)
    requires rest == [] || !IsDigit(rest[0])
    ensures ScanInt(IntText(n) + rest) == Some((n, rest))
  {
    if n < 0 {
      AppendAssoc("-", NatText(-n), rest);
      ScanNegatedText(-n, rest);
    } else {
      ScanNatText(n, rest);
    }
  }

  predicate StartsWith(s: string, w: string) {
    |w| <= |s| && s[..|w|] == w
  }

  /** Whether `w` occurs in `s`, as `std::string::find(w) != npos`. */
  function Contains(s: string, w: string): (b: bool)
    ensures StartsWith(s, w) ==> b
  {
    if |s| < |w| then false
    else if StartsWith(s, w) then true
    else s != [] && Contains(s[1..], w)
  }

  /** `w` occurs in `s` at position i. */
  predicate OccursAt(s: string, w: string, i: int) {
    0 <= i && i + |w| <= |s| && s[i..i + |w|] == w
  }

  /** `find` succeeds exactly when the word occurs somewhere in the text. */
  lemma {:induction false} ContainsOccurs(s: string, w: string)
    ensures Contains(s, w) <==> exists i :: OccursAt(s, w, i)
  {
    if |w| <= |s| && StartsWith(s, w) {
      assert OccursAt(s, w, 0);
    } else if |w| <= |s| && s != [] {
      ContainsOccurs(s[1..], w);
      if exists i :: OccursAt(s[1..], w, i) {
        var i :| OccursAt(s[1..], w, i);
        assert s[i + 1..i + 1 + |w|] == s[1..][i..i + |w|];
        assert OccursAt(s, w, i + 1);
      }
      if exists i :: OccursAt(s, w, i) {
        var i :| OccursAt(s, w, i);
        assert i != 0;
        assert s[1..][i - 1..i - 1 + |w|] == s[i..i + |w|];
        assert OccursAt(s[1..], w, i - 1);
      }
    }
  }

  /** A text that lacks one of `w`'s characters does not contain `w`. */
  lemma {:induction false} MissingCharNotContained(s: string, w: string, c: char)
    requires c in w && c !in s
    ensures !Contains(s, w)
  {
    if |s| >= |w| {
      if s != [] {
        MissingCharNotContained(s[1..], w, c);
      }
    }
  }
}
