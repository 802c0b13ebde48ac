/**
 * String primitives with the meaning Python's `str` methods have in the
 * order engine: substring search (`in`, `str.find`), `str.split(sep)`,
 * `str.strip()`, `str.lower()`, `str.startswith`, `str.replace` of one
 * character, and the `int(...)` / `str(...)` conversions of integers.
 */
module Text {

  datatype Option<T> = None | Some(value: T)

  /** `t` occurs in `s` starting at index `i`. */
  predicate OccursAt(s: string, t: string, i: nat) {
    i + |t| <= |s| && s[i..i + |t|] == t
  }

  /** Leftmost occurrence of `t` in `s` at or after index `i` (Python `s.find(t, i)`). */
  function FindFrom(s: string, t: string, i: nat): (r: Option<nat>)
    ensures r.Some? ==> i <= r.value && OccursAt(s, t, r.value)
    ensures r.Some? ==> forall j: nat :: i <= j < r.value ==> !OccursAt(s, t, j)
    ensures r.None? ==> forall j: nat :: i <= j ==> !OccursAt(s, t, j)
    decreases |s| - i
  {
    if i + |t| > |s| then None
    else if s[i..i + |t|] == t then Some(i)
    else FindFrom(s, t, i + 1)
  }

  function Find(s: string, t: string): Option<nat> {
    FindFrom(s, t, 0)
  }

  /** Python `t in s` for two strings. */
  predicate Contains(s: string, t: string) {
    Find(s, t).Some?
  }

  lemma ContainsIff(s: string, t: string)
    ensures Contains(s, t) <==> exists j: nat :: OccursAt(s, t, j)
  {
    if Contains(s, t) {
      assert OccursAt(s, t, Find(s, t).value);
    }
  }

  /** Where `t` occurs, so does every prefix of `t`. */
  lemma ContainsPrefix(s: string, t: string, n: nat)
    requires n <= |t| && Contains(s, t)
    ensures Contains(s, t[..n])
  {
    var i := Find(s, t).value;
    assert s[i..i + n] == s[i..i + |t|][..n];
    assert OccursAt(s, t[..n], i);
    ContainsIff(s, t[..n]);
  }

  /** An occurrence inside a slice is an occurrence in the whole string. */
  lemma OccursInSuffix(s: string, t: string, a: nat, j: nat)
    requires a <= |s|
    requires OccursAt(s[a..], t, j)
    ensures OccursAt(s, t, a + j)
  {
    assert s[a + j..a + j + |t|] == s[a..][j..j + |t|];
  }

  lemma OccursInPrefix(s: string, t: string, b: nat, j: nat)
    requires b <= |s|
    requires OccursAt(s[..b], t, j)
    ensures OccursAt(s, t, j)
  {
    assert s[j..j + |t|] == s[..b][j..j + |t|];
  }

  predicate StartsWith(s: string, p: string) {
    |p| <= |s| && s[..|p|] == p
  }

  /**
   * Python `s.split(sep)` for a non-empty separator: the pieces of `s`
   * between successive leftmost, non-overlapping occurrences of `sep`.
   */
  function Split(s: string, sep: string): (r: seq<string>)
    requires |sep| > 0
    ensures |r| >= 1
    ensures |r| == 1 <==> !Contains(s, sep)
    decreases |s|
  {
    match Find(s, sep)
    case None => [s]
    case Some(i) => [s[..i]] + Split(s[i + |sep|..], sep)
  }

  /** Python `sep.join(parts)`. */
  function Join(parts: seq<string>, sep: string): string {
    if |parts| == 0 then ""
    else if |parts| == 1 then parts[0]
    else parts[0] + sep + Join(parts[1..], sep)
  }

  /** Splitting and joining again gives back the string. */
  lemma {:induction false} SplitJoin(s: string, sep: string)
    requires |sep| > 0
    ensures Join(Split(s, sep), sep) == s
    decreases |s|
  {
    var f := Find(s, sep);
    if f.Some? {
      var i := f.value;
      var rest := s[i + |sep|..];
      SplitJoin(rest, sep);
      SplitUnfold(s, sep);
      JoinCons(s[..i], Split(rest, sep), sep);
      SliceAround(s, sep, i);
    }
  }

  lemma SplitUnfold(s: string, sep: string)
    requires |sep| > 0 && Find(s, sep).Some?
    ensures var i := Find(s, sep).value;
      Split(s, sep) == [s[..i]] + Split(s[i + |sep|..], sep)
  {
  }

  lemma SliceAround(s: string, t: string, i: nat)
    requires OccursAt(s, t, i)
    ensures s == s[..i] + t + s[i + |t|..]
  {
  }

  lemma JoinCons(x: string, tail: seq<string>, sep: string)
    requires |tail| >= 1
    ensures Join([x] + tail, sep) == x + sep + Join(tail, sep)
  {
    assert ([x] + tail)[1..] == tail;
  }

  /** No piece of a split contains the separator. */
  lemma {:induction false} SplitPiecesFree(s: string, sep: string, k: nat)
    requires |sep| > 0
    requires k < |Split(s, sep)|
    ensures !Contains(Split(s, sep)[k], sep)
    decreases |s|
  {
    match Find(s, sep)
    case None =>
    case Some(i) =>
      if k == 0 {
        if Contains(s[..i], sep) {
          var j := Find(s[..i], sep).value;
          OccursInPrefix(s, sep, i, j);
        }
      } else {
        SplitPiecesFree(s[i + |sep|..], sep, k - 1);
      }
  }

  /** The first piece of a split is the text before the first separator. */
  lemma SplitFirst(s: string, sep: string)
    requires |sep| > 0
    ensures Contains(s, sep) ==> Split(s, sep)[0] == s[..Find(s, sep).value]
    ensures !Contains(s, sep) ==> Split(s, sep)[0] == s
  {
  }

  /**
   * The second piece of a split is the text after the first separator,
   * up to the next separator if there is one.
   */
  lemma SplitSecond(s: string, sep: string)
    requires |sep| > 0
    requires Contains(s, sep)
    ensures var rest := s[Find(s, sep).value + |sep|..];
      Split(s, sep)[1] == Split(rest, sep)[0]
  {
  }

  /** The first piece of splitting on one character holds none of that character. */
  lemma {:induction false} SplitFirstCharFree(s: string, c: char)
    ensures forall j :: 0 <= j < |Split(s, [c])[0]| ==> Split(s, [c])[0][j] != c
  {
    var p := Split(s, [c])[0];
    SplitPiecesFree(s, [c], 0);
    forall j | 0 <= j < |p|
      ensures p[j] != c
    {
      if p[j] == c {
        assert OccursAt(p, [c], j);
        ContainsIff(p, [c]);
      }
    }
  }

  /** An occurrence with none before it is the one `Find` reports. */
  lemma FindAt(s: string, t: string, i: nat)
    requires OccursAt(s, t, i)
    requires forall j: nat :: j < i ==> !OccursAt(s, t, j)
    ensures Find(s, t) == Some(i)
  {
  }

  /** A character not in `s` does not occur in it ... */
  lemma CharAbsent(s: string, c: char)
    requires c !in s
    ensures !Contains(s, [c])
  {
    forall j: nat | j < |s|
      ensures !OccursAt(s, [c], j)
    {
      assert s[j..j + 1] == [s[j]];
    }
  }

  /** ... so appended to `s` it is found at the end. */
  lemma CharAppended(s: string, c: char)
    requires c !in s
    ensures Find(s + [c], [c]) == Some(|s|)
  {
    var w := s + [c];
    assert OccursAt(w, [c], |s|);
    forall j: nat | j < |s|
      ensures !OccursAt(w, [c], j)
    {
      assert w[j..j + 1] == [s[j]];
    }
    FindAt(w, [c], |s|);
  }

  /**
   * When the first `sep` of `a + sep` is the appended one, splitting
   * `a + sep + b` gives `a` and then the pieces of `b`.
   */
  lemma SplitAfter(a: string, sep: string, b: string)
    requires |sep| > 0 && Find(a + sep, sep) == Some(|a|)
    ensures Split(a + sep + b, sep) == [a] + Split(b, sep)
  {
    var w := a + sep + b;
    assert w[|a|..|a| + |sep|] == sep;
    forall j: nat | j < |a|
      ensures !OccursAt(w, sep, j)
    {
      assert !OccursAt(a + sep, sep, j);
      assert w[j..j + |sep|] == (a + sep)[j..j + |sep|];
    }
    FindAt(w, sep, |a|);
    assert w[..|a|] == a;
    assert w[|a| + |sep|..] == b;
  }

  /** The longest prefix of `s` holding none of the characters in `stops`. */
  function UpTo(s: string, stops: set<char>): (r: string)
    ensures |r| <= |s| && r == s[..|r|]
    ensures forall j :: 0 <= j < |r| ==> r[j] !in stops
    ensures |r| < |s| ==> s[|r|] in stops
  {
    if |s| == 0 || s[0] in stops then "" else [s[0]] + UpTo(s[1..], stops)
  }

  /** A prefix without stops that ends at a stop or at the end is the one `UpTo` finds. */
  lemma UpToUnique(s: string, stops: set<char>, r: string)
    requires |r| <= |s| && r == s[..|r|]
    requires forall j :: 0 <= j < |r| ==> r[j] !in stops
    requires |r| < |s| ==> s[|r|] in stops
    ensures r == UpTo(s, stops)
  {
  }

  /** `s.split(c)[0]` for one character `c` cuts `s` at its first `c`. */
  lemma SplitCharIsUpTo(s: string, c: char)
    ensures Split(s, [c])[0] == UpTo(s, {c})
  {
    var p := Split(s, [c])[0];
    SplitFirst(s, [c]);
    SplitFirstCharFree(s, c);
    if Contains(s, [c]) {
      assert OccursAt(s, [c], Find(s, [c]).value);
    }
    UpToUnique(s, {c}, p);
  }

  /** Cutting at the stops `a` and then at `b` is cutting at both. */
  lemma UpToUpTo(s: string, a: set<char>, b: set<char>)
    ensures UpTo(UpTo(s, a), b) == UpTo(s, a + b)
  {
    var t := UpTo(s, a);
    var r := UpTo(t, b);
    assert r == s[..|r|];
    UpToUnique(s, a + b, r);
  }

  /**
   * `w` is where `rest` starts, up to (not including) the first stop
   * character or the first occurrence of `sep`, whichever comes first.
   */
  predicate LeadingSegment(rest: string, w: string, stops: set<char>, sep: string) {
    && |w| <= |rest| && w == rest[..|w|]
    && (forall j :: 0 <= j < |w| ==> w[j] !in stops && !OccursAt(rest, sep, j))
    && (|w| == |rest| || rest[|w|] in stops || OccursAt(rest, sep, |w|))
  }

  /** A string has exactly one leading segment. */
  lemma LeadingSegmentUnique(rest: string, a: string, b: string, stops: set<char>, sep: string)
    requires LeadingSegment(rest, a, stops, sep) && LeadingSegment(rest, b, stops, sep)
    ensures a == b
  {
  }

  /**
   * The piece `s.split(sep)[1]`, cut at `stops`, seen from the text after
   * the first `sep`: the leading segment of that text.
   */
  lemma SecondPieceUpTo(s: string, sep: string, stops: set<char>)
    requires |sep| > 0 && Contains(s, sep)
    ensures var rest := s[Find(s, sep).value + |sep|..];
      LeadingSegment(rest, UpTo(Split(s, sep)[1], stops), stops, sep)
  {
    assert OccursAt(s, sep, Find(s, sep).value);
    var rest := s[Find(s, sep).value + |sep|..];
    SplitSecond(s, sep);
    SplitFirst(rest, sep);
    var p := Split(rest, sep)[0];
    var u := UpTo(p, stops);
    assert p == rest[..|p|];
    assert u == rest[..|u|];
    if |u| == |p| && |p| < |rest| {
      assert Contains(rest, sep);
    }
    forall j | 0 <= j < |u|
      ensures !OccursAt(rest, sep, j)
    {
      if Contains(rest, sep) {
        assert j < Find(rest, sep).value;
      }
    }
  }

  /** Whitespace as Python's `str.isspace` defines it. */
  predicate IsSpace(c: char) {
    c == ' ' || ('\t' <= c <= '\r') || ('\U{1C}' <= c <= '\U{1F}')
    || c == '\U{85}' || c == '\U{A0}' || c == '\U{1680}'
    || ('\U{2000}' <= c <= '\U{200A}') || c == '\U{2028}' || c == '\U{2029}'
    || c == '\U{202F}' || c == '\U{205F}' || c == '\U{3000}'
  }

  /** The end of the run of whitespace that starts at `i`. */
  function SpacesFrom(s: string, i: nat): (n: nat)
    requires i <= |s|
    ensures i <= n <= |s|
    ensures forall j :: i <= j < n ==> IsSpace(s[j])
    ensures n < |s| ==> !IsSpace(s[n])
    decreases |s| - i
  {
    if i < |s| && IsSpace(s[i]) then SpacesFrom(s, i + 1) else i
  }

  /** The start of the run of whitespace that ends at `e`. */
  function SpacesBefore(s: string, e: nat): (n: nat)
    requires e <= |s|
    ensures n <= e
    ensures forall j :: n <= j < e ==> IsSpace(s[j])
    ensures n > 0 ==> !IsSpace(s[n - 1])
  {
    if e > 0 && IsSpace(s[e - 1]) then SpacesBefore(s, e - 1) else e
  }

  /** Python `s.strip()`: `s` without leading and trailing whitespace. */
  function Strip(s: string): (r: string)
    ensures exists a: nat, b: nat ::
              (a <= b <= |s| && r == s[a..b]
               && (forall j :: 0 <= j < a ==> IsSpace(s[j]))
               && (forall j :: b <= j < |s| ==> IsSpace(s[j])))
    ensures |r| > 0 ==> !IsSpace(r[0]) && !IsSpace(r[|r| - 1])
  {
    var a := SpacesFrom(s, 0);
    if a == |s| then
      assert s[a..a] == "";
      ""
    else
      var b := SpacesBefore(s, |s|);
      assert a < b;
      s[a..b]
  }

  /** A string without surrounding whitespace is its own strip. */
  lemma StripNoop(s: string)
    requires |s| > 0 ==> !IsSpace(s[0]) && !IsSpace(s[|s| - 1])
    ensures Strip(s) == s
  {
    if |s| > 0 {
      assert SpacesBefore(s, |s|) == |s|;
      assert s[0..|s|] == s;
    }
  }

  lemma StripIdempotent(s: string)
    ensures Strip(Strip(s)) == Strip(s)
  {
    StripNoop(Strip(s));
  }

  /** ASCII letters folded to lower case, as `str.lower` does for them. */
  function LowerChar(c: char): char {
    if 'A' <= c <= 'Z' then (c as int + 32) as char else c
  }

  function Lower(s: string): (r: string)
    ensures |r| == |s|
    ensures forall j :: 0 <= j < |s| ==> r[j] == LowerChar(s[j])
  {
    if |s| == 0 then "" else [LowerChar(s[0])] + Lower(s[1..])
  }

  /** Python `s.replace(c, '')` for a one-character string `c`. */
  function RemoveChar(s: string, c: char): (r: string)
    ensures forall j :: 0 <= j < |r| ==> r[j] != c
    ensures c !in s ==> r == s
  {
    if |s| == 0 then ""
    else if s[0] == c then RemoveChar(s[1..], c)
    else [s[0]] + RemoveChar(s[1..], c)
  }

  predicate IsDigit(c: char) {
    '0' <= c <= '9'
  }

  function DigitValue(c: char): nat
    requires IsDigit(c)
  {
    c as int - '0' as int
  }

  function DigitChar(d: nat): (c: char)
    requires d < 10
    ensures IsDigit(c) && DigitValue(c) == d
  {
    ('0' as int + d) as char
  }

  predicate AllDigits(s: string) {
    forall j :: 0 <= j < |s| ==> IsDigit(s[j])
  }

  /** Decimal value of a string of ASCII digits, most significant first. */
  function DigitsValue(s: string): nat
    requires AllDigits(s)
  {
    if |s| == 0 then 0 else 10 * DigitsValue(s[..|s| - 1]) + DigitValue(s[|s| - 1])
  }

  /** Python `str(n)` for a natural number. */
  function NatToStr(n: nat): (r: string)
    ensures |r| > 0 && AllDigits(r)
  {
    if n < 10 then [DigitChar(n)] else NatToStr(n / 10) + [DigitChar(n % 10)]
  }

  /** Python `str(n)` for an integer. */
  function IntToStr(n: int): string {
    if n < 0 then "-" + NatToStr(-n) else NatToStr(n)
  }

  /**
   * Python `int(s)` on a string: surrounding whitespace, an optional sign
   * and at least one ASCII digit; `None` where Python raises `ValueError`.
   */
  function ParseInt(s: string): (r: Option<int>)
    ensures Strip(s) == "" ==> r.None?
    ensures |Strip(s)| > 0 && AllDigits(Strip(s)) ==> r == Some(DigitsValue(Strip(s)) as int)
    ensures r.Some? ==> exists j :: 0 <= j < |Strip(s)| && IsDigit(Strip(s)[j])
  {
    var t := Strip(s);
    if |t| > 0 && (t[0] == '-' || t[0] == '+') then
      var d := t[1..];
      if |d| > 0 && AllDigits(d) then Some(if t[0] == '-' then 0 - DigitsValue(d) else DigitsValue(d) as int)
      else None
    else if |t| > 0 && AllDigits(t) then Some(DigitsValue(t))
    else None
  }

  lemma {:induction false} NatToStrValue(n: nat)
    ensures DigitsValue(NatToStr(n)) == n
  {
    if n >= 10 {
      NatToStrValue(n / 10);
      var r := NatToStr(n);
      assert r[..|r| - 1] == NatToStr(n / 10);
    }
  }

  /** `int(str(n)) == n`: the service number survives its string round trip. */
  lemma ParseIntToStr(n: int)
    ensures ParseInt(IntToStr(n)) == Some(n)
  {
    var s := IntToStr(n);
    var m := if n < 0 then -n else n;
    NatToStrValue(m);
    var ds := NatToStr(m);
    assert !IsSpace(ds[|ds| - 1]);
    StripNoop(s);
    if n < 0 {
      assert s[1..] == ds;
    }
  }
}
