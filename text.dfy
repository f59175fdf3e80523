/** The string operations of Python that the modelled code relies on:
    `p in s`, `s.split(sep)`, `s.strip()`, `s.lstrip(c)`, `re.sub(c, '', s)`,
    `int(s)` and `str(n)` (the last two over ASCII digits). */
module Text {
  import opened Common

  /** `p` occurs in `s` starting at index `i`. */
  predicate OccursAt(s: string, p: string, i: nat) {
    i + |p| <= |s| && s[i..i + |p|] == p
  }

  /** Python's `p in s` on strings (the empty string occurs everywhere). */
  predicate Contains(s: string, p: string) {
    exists i | 0 <= i <= |s| :: OccursAt(s, p, i)
  }

  /** The first index `>= from` where `p` occurs in `s`, as `str.find` does. */
  function FindFrom(s: string, p: string, from: nat): (r: Option<nat>)
    ensures r.Some? ==> from <= r.value && OccursAt(s, p, r.value)
    ensures r.Some? ==> forall j :: from <= j < r.value ==> !OccursAt(s, p, j)
    ensures r.None? ==> forall j :: from <= j ==> !OccursAt(s, p, j)
    decreases |s| - from
  {
    if from + |p| > |s| then None
    else if OccursAt(s, p, from) then Some(from)
    else FindFrom(s, p, from + 1)
  }

  lemma {:induction false} FindFromZeroIffContains(s: string, p: string)
    ensures FindFrom(s, p, 0).Some? <==> Contains(s, p)
  {
    if Contains(s, p) {
      var i :| 0 <= i <= |s| && OccursAt(s, p, i);
    }
  }

  /** Python's `s.split(sep)` for a non-empty separator: left to right,
      non-overlapping, always at least one piece. */
  function Split(s: string, sep: string): (r: seq<string>)
    requires |sep| > 0
    ensures |r| >= 1
    decreases |s|
  {
    match FindFrom(s, sep, 0)
    case None => [s]
    case Some(k) => [s[..k]] + Split(s[k + |sep|..], sep)
  }

  /** Python's `sep.join(parts)`. */
  function Join(parts: seq<string>, sep: string): string
  {
    if |parts| == 0 then ""
    else if |parts| == 1 then parts[0]
    else parts[0] + sep + Join(parts[1..], sep)
  }

  /** Splitting loses nothing: joining the pieces back gives the text. */
  lemma {:induction false} JoinSplit(s: string, sep: string)
    requires |sep| > 0
    ensures Join(Split(s, sep), sep) == s
    decreases |s|
  {
    match FindFrom(s, sep, 0)
    case None =>
    case Some(k) =>
      var rest := s[k + |sep|..];
      var pieces := Split(rest, sep);
      JoinSplit(rest, sep);
      assert Split(s, sep) == [s[..k]] + pieces;
      assert ([s[..k]] + pieces)[1..] == pieces;
      assert Join(Split(s, sep), sep) == s[..k] + sep + Join(pieces, sep);
      assert s == s[..k] + sep + rest by {
        assert s[k..k + |sep|] == sep;
      }
  }

  /** No piece of a split contains the separator. */
  lemma {:induction false} SplitPiecesAreFree(s: string, sep: string, i: nat)
    requires |sep| > 0
    requires i < |Split(s, sep)|
    ensures !Contains(Split(s, sep)[i], sep)
    decreases |s|
  {
    match FindFrom(s, sep, 0)
    case None =>
      FindFromZeroIffContains(s, sep);
    case Some(k) =>
      if i == 0 {
        var piece := s[..k];
        assert k + |sep| <= |s| && forall j :: 0 <= j < k ==> !OccursAt(s, sep, j);
        forall j | 0 <= j <= |piece|
          ensures !OccursAt(piece, sep, j)
        {
          if j + |sep| <= |piece| {
            assert !OccursAt(s, sep, j);
            assert piece[j..j + |sep|] == s[j..j + |sep|];
          }
        }
      } else {
        SplitPiecesAreFree(s[k + |sep|..], sep, i - 1);
      }
  }

  /** The first piece of a split is the text before the first separator. */
  lemma {:induction false} SplitFirstPiece(s: string, sep: string)
    requires |sep| > 0
    ensures var p := Split(s, sep)[0];
            && |p| <= |s| && p == s[..|p|] && !Contains(p, sep)
            && (|p| == |s| || OccursAt(s, sep, |p|))
  {
    SplitPiecesAreFree(s, sep, 0);
  }

  /** Where the last piece of a split starts: just after the last separator
      the split consumed, or 0 when there is none. */
  function LastPieceStart(s: string, sep: string): (p: nat)
    requires |sep| > 0
    ensures p <= |s|
    ensures p == 0 || (p >= |sep| && OccursAt(s, sep, p - |sep|))
    decreases |s|
  {
    match FindFrom(s, sep, 0)
    case None => 0
    case Some(k) =>
      var q := LastPieceStart(s[k + |sep|..], sep);
      assert q > 0 ==> s[k + |sep|..][q - |sep|..q] == s[k + |sep| + q - |sep|..k + |sep| + q];
      k + |sep| + q
  }

  lemma {:induction false} DropDrop(s: string, a: nat, b: nat)
    requires a + b <= |s|
    ensures s[a..][b..] == s[a + b..]
  {
  }

  /** The last piece of a split is the text after the last separator the
      split consumed (the whole text when there is none), and holds no
      separator. */
  lemma {:induction false} SplitLastPiece(s: string, sep: string)
    requires |sep| > 0
    ensures var p := LastPieceStart(s, sep);
            && Last(Split(s, sep)) == s[p..] && !Contains(s[p..], sep)
            && (p == 0 || OccursAt(s, sep, p - |sep|))
  {
    SplitPiecesAreFree(s, sep, |Split(s, sep)| - 1);
    SplitLastPosition(s, sep);
  }

  lemma {:induction false} SplitLastPosition(s: string, sep: string)
    requires |sep| > 0
    ensures Last(Split(s, sep)) == s[LastPieceStart(s, sep)..]
    decreases |s|
  {
    var f := FindFrom(s, sep, 0);
    if f.Some? {
      var k := f.value;
      var rest := s[k + |sep|..];
      SplitLastPosition(rest, sep);
      SplitUnfold(s, sep, k);
      var pieces := Split(rest, sep);
      LastConcat([s[..k]], pieces);
      DropDrop(s, k + |sep|, LastPieceStart(rest, sep));
    }
  }

  /** One step of `Split` and of `LastPieceStart` past a found separator. */
  lemma {:induction false} SplitUnfold(s: string, sep: string, k: nat)
    requires |sep| > 0 && FindFrom(s, sep, 0) == Some(k)
    ensures k + |sep| <= |s|
    ensures Split(s, sep) == [s[..k]] + Split(s[k + |sep|..], sep)
    ensures LastPieceStart(s, sep) == k + |sep| + LastPieceStart(s[k + |sep|..], sep)
  {
  }

  function Last<T>(s: seq<T>): T
    requires |s| > 0
  {
    s[|s| - 1]
  }

  lemma {:induction false} LastConcat<T>(a: seq<T>, b: seq<T>)
    requires |b| > 0
    ensures Last(a + b) == Last(b)
  {
  }

  /** The characters Python's `str.isspace()` accepts (and `int()` skips). */
  predicate IsSpace(c: char) {
    c == ' ' || ('\t' <= c <= '\r') || ('\U{001C}' <= c <= '\U{001F}')
    || c == '\U{0085}' || c == '\U{00A0}' || c == '\U{1680}'
    || ('\U{2000}' <= c <= '\U{200A}') || c == '\U{2028}' || c == '\U{2029}'
    || c == '\U{202F}' || c == '\U{205F}' || c == '\U{3000}'
  }

  function StripLeft(s: string): (r: string)
  {
    if |s| > 0 && IsSpace(s[0]) then StripLeft(s[1..]) else s
  }

  function StripRight(s: string): (r: string)
  {
    if |s| > 0 && IsSpace(s[|s| - 1]) then StripRight(s[..|s| - 1]) else s
  }

  /** Python's `s.strip()`. */
  function Strip(s: string): string {
    StripRight(StripLeft(s))
  }

  /** Python's `s.lstrip(c)` for one character. */
  function LStripChar(s: string, c: char): (r: string)
    ensures |r| <= |s| && r == s[|s| - |r|..]
    ensures |r| > 0 ==> r[0] != c
    ensures forall i :: 0 <= i < |s| - |r| ==> s[i] == c
  {
    if |s| > 0 && s[0] == c then LStripChar(s[1..], c) else s
  }

  /** Python's `re.sub(c, '', s)` for a one-character pattern. */
  function RemoveAll(s: string, c: char): (r: string)
    ensures c !in r
    ensures c !in s ==> r == s
  {
    if |s| == 0 then ""
    else (if s[0] == c then "" else [s[0]]) + RemoveAll(s[1..], c)
  }

  /** Removal works character by character: a character other than `c`
      stays, and `c` goes. */
  lemma {:induction false} RemoveAllSingle(x: char, c: char)
    ensures RemoveAll([x], c) == if x == c then "" else [x]
  {
    assert [x][1..] == "";
  }

  /** Removal distributes over concatenation, so the characters other than
      `c` stay in their order. */
  lemma {:induction false} RemoveAllConcat(a: string, b: string, c: char)
    ensures RemoveAll(a + b, c) == RemoveAll(a, c) + RemoveAll(b, c)
    decreases |a|
  {
    if |a| > 0 {
      var head := if a[0] == c then "" else [a[0]];
      assert (a + b)[0] == a[0];
      assert (a + b)[1..] == a[1..] + b;
      assert RemoveAll(a + b, c) == head + RemoveAll(a[1..] + b, c);
      assert RemoveAll(a, c) == head + RemoveAll(a[1..], c);
      RemoveAllConcat(a[1..], b, c);
    } else {
      assert a + b == b;
    }
  }

  /** Removal keeps every other character with its multiplicity. */
  lemma {:induction false} RemoveAllMultiset(s: string, c: char)
    ensures multiset(RemoveAll(s, c)) == multiset(s)[c := 0]
    decreases |s|
  {
    if |s| > 0 {
      RemoveAllMultiset(s[1..], c);
      assert s == [s[0]] + s[1..];
      assert multiset(s) == multiset{s[0]} + multiset(s[1..]);
    }
  }

  predicate IsDigitChar(c: char) { '0' <= c <= '9' }

  /** A non-empty run of ASCII digits (what `\d+` matches, on ASCII text). */
  predicate IsDigits(s: string) {
    |s| > 0 && forall i :: 0 <= i < |s| ==> IsDigitChar(s[i])
  }

  function DigitValue(c: char): nat
    requires IsDigitChar(c)
  {
    (c as int - '0' as int) as nat
  }

  function DigitChar(d: nat): (c: char)
    requires d < 10
    ensures IsDigitChar(c) && DigitValue(c) == d
  {
    ('0' as int + d) as char
  }

  /** The number a run of decimal digits spells. */
  function DigitsValue(s: string): nat
    requires forall i :: 0 <= i < |s| ==> IsDigitChar(s[i])
  {
    if |s| == 0 then 0 else DigitsValue(s[..|s| - 1]) * 10 + DigitValue(s[|s| - 1])
  }

  /** Python's `int(s)` on text: surrounding whitespace, an optional sign and
      one or more ASCII digits; anything else raises ValueError. */
  function ParseInt(s: string): Option<int> {
    var t := Strip(s);
    if |t| > 0 && (t[0] == '-' || t[0] == '+') then
      if IsDigits(t[1..]) then
        var v: int := DigitsValue(t[1..]);
        Some(if t[0] == '-' then -v else v)
      else None
    else if IsDigits(t) then Some(DigitsValue(t))
    else None
  }

  /** Python's `str(n)` for a non-negative integer. */
  function NatToString(n: nat): (r: string)
    ensures IsDigits(r)
  {
    if n < 10 then [DigitChar(n)] else NatToString(n / 10) + [DigitChar(n % 10)]
  }

  /** Python's `str(n)` for an integer. */
  function IntToString(n: int): string {
    if n < 0 then "-" + NatToString(-n) else NatToString(n)
  }

  lemma {:induction false} NatToStringValue(n: nat)
    ensures DigitsValue(NatToString(n)) == n
  {
    if n >= 10 {
      NatToStringValue(n / 10);
      var s := NatToString(n);
      assert s[..|s| - 1] == NatToString(n / 10);
    }
  }

  lemma {:induction false} StripDigitsUnchanged(s: string)
    requires |s| > 0 && !IsSpace(s[0]) && !IsSpace(s[|s| - 1])
    ensures Strip(s) == s
  {
  }

  /** `int(str(n)) == n`. */
  lemma {:induction false} ParseIntOfIntToString(n: int)
    ensures ParseInt(IntToString(n)) == Some(n)
  {
    var d := NatToString(if n < 0 then -n else n);
    NatToStringValue(if n < 0 then -n else n);
    var s := IntToString(n);
    StripDigitsUnchanged(s);
    if n < 0 {
      assert s[1..] == d;
    }
  }

  /** `str` is injective on integers, so distinct times give distinct keys. */
  lemma {:induction false} IntToStringInjective(a: int, b: int)
    ensures IntToString(a) == IntToString(b) ==> a == b
  {
    ParseIntOfIntToString(a);
    ParseIntOfIntToString(b);
  }

  /** `int()` of a digit run is its non-negative decimal value. */
  lemma {:induction false} ParseIntOfDigits(s: string)
    requires IsDigits(s)
    ensures ParseInt(s) == Some(DigitsValue(s))
  {
    StripDigitsUnchanged(s);
  }
}
