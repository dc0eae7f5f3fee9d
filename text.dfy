/** String operations the two build scripts rely on, written out so that the
    rest of the model can state exact results: Python's `str.strip`,
    `str.lower`/`str.upper`, `in` on strings, `str.join`, `sorted` on strings,
    and JavaScript's `String.prototype.trim` and `Number.prototype.toFixed(0)`,
    together with the `{:,}` thousands formatting used by the snapshot box. */
module Text {

  // ---------------------------------------------------------------------------
  // Whitespace and trimming
  // ---------------------------------------------------------------------------

  /** The characters for which Python's `str.isspace` holds (what `str.strip()`
      removes). */
  predicate PySpace(c: char) {
    c == ' ' || ('\t' <= c <= '\r') || ('\U{1C}' <= c <= '\U{1F}')
    || c == '\U{85}' || c == '\U{A0}' || c == '\U{1680}'
    || ('\U{2000}' <= c <= '\U{200A}') || c == '\U{2028}' || c == '\U{2029}'
    || c == '\U{202F}' || c == '\U{205F}' || c == '\U{3000}'
  }

  /** The WhiteSpace and LineTerminator characters that ECMAScript's
      `String.prototype.trim` removes. */
  predicate JsSpace(c: char) {
    c == ' ' || ('\t' <= c <= '\r') || c == '\U{A0}' || c == '\U{1680}'
    || ('\U{2000}' <= c <= '\U{200A}') || c == '\U{2028}' || c == '\U{2029}'
    || c == '\U{202F}' || c == '\U{205F}' || c == '\U{3000}' || c == '\U{FEFF}'
  }

  ghost predicate AllSpace(w: string, sp: char -> bool) {
    forall i :: 0 <= i < |w| ==> sp(w[i])
  }

  /** No whitespace at either end (vacuously true of the empty string). */
  ghost predicate Unpadded(v: string, sp: char -> bool) {
    |v| > 0 ==> !sp(v[0]) && !sp(v[|v| - 1])
  }

  /** Drops leading whitespace: the result is the suffix of `s` that starts at
      its first non-space character. */
  function TrimStart(s: string, sp: char -> bool): (r: string)
    ensures |r| <= |s| && r == s[|s| - |r|..]
    ensures |r| > 0 ==> !sp(r[0])
    ensures forall i :: 0 <= i < |s| - |r| ==> sp(s[i])
    decreases |s|
  {
    if |s| > 0 && sp(s[0]) then TrimStart(s[1..], sp) else s
  }

  /** Drops trailing whitespace: the result is the prefix of `s` that ends at
      its last non-space character. */
  function TrimEnd(s: string, sp: char -> bool): (r: string)
    ensures |r| <= |s| && r == s[..|r|]
    ensures |r| > 0 ==> !sp(r[|r| - 1])
    ensures forall i :: |r| <= i < |s| ==> sp(s[i])
    decreases |s|
  {
    if |s| > 0 && sp(s[|s| - 1]) then TrimEnd(s[..|s| - 1], sp) else s
  }

  /** Whitespace removed from both ends. */
  function Trim(s: string, sp: char -> bool): (r: string)
    ensures |r| <= |s|
    ensures Unpadded(r, sp)
  {
    TrimEnd(TrimStart(s, sp), sp)
  }

  /** Python `s.strip()`. */
  function PyStrip(s: string): string { Trim(s, PySpace) }

  /** JavaScript `s.trim()`. */
  function JsTrim(s: string): string { Trim(s, JsSpace) }

  lemma {:induction false} TrimStartPadded(w: string, t: string, sp: char -> bool)
    requires AllSpace(w, sp)
    ensures TrimStart(w + t, sp) == TrimStart(t, sp)
    decreases |w|
  {
    if |w| > 0 {
      assert (w + t)[0] == w[0];
      assert (w + t)[1..] == w[1..] + t;
      TrimStartPadded(w[1..], t, sp);
    } else {
      assert w + t == t;
    }
  }

  lemma {:induction false} TrimEndPadded(t: string, w: string, sp: char -> bool)
    requires AllSpace(w, sp)
    ensures TrimEnd(t + w, sp) == TrimEnd(t, sp)
    decreases |w|
  {
    if |w| > 0 {
      assert (t + w)[|t + w| - 1] == w[|w| - 1];
      assert (t + w)[..|t + w| - 1] == t + w[..|w| - 1];
      TrimEndPadded(t, w[..|w| - 1], sp);
    } else {
      assert t + w == t;
    }
  }

  /** Trimming removes exactly the padding: whatever whitespace surrounds a
      string with no whitespace at its ends, trimming gives that string back. */
  lemma TrimPadded(w1: string, v: string, w2: string, sp: char -> bool)
    requires AllSpace(w1, sp) && AllSpace(w2, sp) && Unpadded(v, sp)
    ensures Trim(w1 + v + w2, sp) == v
  {
    assert w1 + v + w2 == w1 + (v + w2);
    TrimStartPadded(w1, v + w2, sp);
    if |v| == 0 {
      assert v + w2 == [] + w2;
      TrimStartPadded(w2, [], sp);
      assert w2 + [] == w2;
    } else {
      assert TrimStart(v + w2, sp) == v + w2;
      TrimEndPadded(v, w2, sp);
    }
  }

  /** Trimming twice is trimming once. */
  lemma TrimIdempotent(s: string, sp: char -> bool)
    ensures Trim(Trim(s, sp), sp) == Trim(s, sp)
  {
    var r := Trim(s, sp);
    assert [] + r + [] == r;
    TrimPadded([], r, [], sp);
  }

  /** JavaScript's `s.length`: the number of UTF-16 code units, two for a
      character outside the Basic Multilingual Plane. */
  function Utf16Length(s: string): (n: nat)
    ensures |s| <= n <= 2 * |s|
    decreases |s|
  {
    if |s| == 0 then 0
    else Utf16Length(s[..|s| - 1]) + (if s[|s| - 1] as int >= 0x1_0000 then 2 else 1)
  }

  // ---------------------------------------------------------------------------
  // Case mapping (ASCII letters)
  // ---------------------------------------------------------------------------

  function LowerChar(c: char): char {
    if 'A' <= c <= 'Z' then (c as int + 32) as char else c
  }

  function UpperChar(c: char): char {
    if 'a' <= c <= 'z' then (c as int - 32) as char else c
  }

  /** Python `str.lower()` / JavaScript `toLowerCase()` on ASCII letters. */
  function Lower(s: string): (r: string)
    ensures |r| == |s|
  {
    seq(|s|, i requires 0 <= i < |s| => LowerChar(s[i]))
  }

  /** Python `str.upper()` on ASCII letters. */
  function Upper(s: string): (r: string)
    ensures |r| == |s|
  {
    seq(|s|, i requires 0 <= i < |s| => UpperChar(s[i]))
  }

  /** Lower-casing forgets how a string was cased. */
  lemma LowerUpper(s: string)
    ensures Lower(Upper(s)) == Lower(s)
  {
    forall i | 0 <= i < |s| ensures Lower(Upper(s))[i] == Lower(s)[i] {
      var c := s[i];
      if 'a' <= c <= 'z' {
        assert UpperChar(c) as int == c as int - 32;
      }
    }
  }

  /** Case mapping works character by character, so it distributes over
      concatenation. */
  lemma LowerAppend(a: string, b: string)
    ensures Lower(a + b) == Lower(a) + Lower(b)
  {
  }

  /** Case mapping leaves whitespace where it is. */
  lemma LowerKeepsSpace(c: char, sp: char -> bool)
    requires sp == PySpace || sp == JsSpace
    ensures sp(LowerChar(c)) <==> sp(c)
  {
  }

  // ---------------------------------------------------------------------------
  // Substrings
  // ---------------------------------------------------------------------------

  predicate StartsWith(s: string, t: string) {
    |t| <= |s| && s[..|t|] == t
  }

  /** Python `t in s` for strings. */
  predicate Contains(s: string, t: string)
    decreases |s|
  {
    StartsWith(s, t) || (|s| > 0 && Contains(s[1..], t))
  }

  /** `t` occurs in `s` at every position where `s` spells it out. */
  lemma {:induction false} ContainsAt(s: string, t: string, i: nat)
    requires i + |t| <= |s| && s[i..i + |t|] == t
    ensures Contains(s, t)
    decreases i
  {
    if i > 0 {
      assert s[1..][i - 1..i - 1 + |t|] == s[i..i + |t|];
      ContainsAt(s[1..], t, i - 1);
    } else {
      assert s[..|t|] == s[0..|t|];
    }
  }

  /** Anything around an occurrence keeps it an occurrence. */
  lemma ContainsInfix(a: string, t: string, b: string)
    ensures Contains(a + t + b, t)
  {
    var s := a + t + b;
    assert s[|a|..|a| + |t|] == t;
    ContainsAt(s, t, |a|);
  }

  /** A string that contains `p + t` contains `t`. */
  lemma {:induction false} ContainsSuffix(s: string, p: string, t: string)
    requires Contains(s, p + t)
    ensures Contains(s, t)
    decreases |s|
  {
    if StartsWith(s, p + t) {
      assert s[|p|..|p| + |t|] == (p + t)[|p|..];
      ContainsAt(s, t, |p|);
    } else {
      ContainsSuffix(s[1..], p, t);
    }
  }

  /** The lower-cased form of a string that contains `t`, in any case, contains
      the lower-cased `t`. */
  lemma LowerContainsInfix(a: string, t: string, b: string)
    ensures Contains(Lower(a + t + b), Lower(t))
  {
    LowerAppend(a + t, b);
    LowerAppend(a, t);
    ContainsInfix(Lower(a), Lower(t), Lower(b));
  }

  // ---------------------------------------------------------------------------
  // Joining
  // ---------------------------------------------------------------------------

  /** Python `sep.join(parts)`. */
  function Join(parts: seq<string>, sep: string): (r: string)
    ensures |parts| == 0 ==> r == ""
    ensures |parts| == 1 ==> r == parts[0]
    ensures |parts| > 0 ==> StartsWith(r, parts[0])
    ensures |r| >= (|parts| - 1) * |sep|
  {
    if |parts| == 0 then ""
    else if |parts| == 1 then parts[0]
    else
      var rest := Join(parts[1..], sep);
      assert (parts[0] + sep + rest)[..|parts[0]|] == parts[0];
      parts[0] + sep + rest
  }

  // ---------------------------------------------------------------------------
  // Code-point order on strings (Python's `<` on str) and sorted sets
  // ---------------------------------------------------------------------------

  /** Lexicographic order by code point, a proper prefix being smaller. */
  predicate StrLt(a: string, b: string)
    decreases |a|
  {
    if |a| == 0 then |b| > 0
    else |b| > 0 && (if a[0] == b[0] then StrLt(a[1..], b[1..]) else a[0] < b[0])
  }

  lemma {:induction false} StrLtIrreflexive(a: string)
    ensures !StrLt(a, a)
    decreases |a|
  {
    if |a| > 0 { StrLtIrreflexive(a[1..]); }
  }

  lemma {:induction false} StrLtTransitive(a: string, b: string, c: string)
    requires StrLt(a, b) && StrLt(b, c)
    ensures StrLt(a, c)
    decreases |a|
  {
    if |a| > 0 && a[0] == b[0] && b[0] == c[0] {
      StrLtTransitive(a[1..], b[1..], c[1..]);
    }
  }

  lemma {:induction false} StrLtTotal(a: string, b: string)
    ensures a == b || StrLt(a, b) || StrLt(b, a)
    decreases |a|
  {
    if |a| > 0 && |b| > 0 && a[0] == b[0] {
      StrLtTotal(a[1..], b[1..]);
      if a[1..] == b[1..] {
        assert a == [a[0]] + a[1..];
        assert b == [b[0]] + b[1..];
      }
    }
  }

  lemma StrLtAsymmetric(a: string, b: string)
    requires StrLt(a, b)
    ensures !StrLt(b, a)
  {
    if StrLt(b, a) {
      StrLtTransitive(a, b, a);
      StrLtIrreflexive(a);
    }
  }

  ghost predicate StrictlySorted(s: seq<string>) {
    forall i, j :: 0 <= i < j < |s| ==> StrLt(s[i], s[j])
  }

  function Elems(s: seq<string>): set<string> {
    set x | x in s
  }

  /** Adds `x` to an ascending list of distinct strings (a sorted set): a
      no-op when it is already present. */
  function Insert(s: seq<string>, x: string): seq<string>
    decreases |s|
  {
    if |s| == 0 then [x]
    else if x == s[0] then s
    else if StrLt(x, s[0]) then [x] + s
    else [s[0]] + Insert(s[1..], x)
  }

  lemma SortedCons(a: string, r: seq<string>)
    requires StrictlySorted(r)
    requires forall y :: y in r ==> StrLt(a, y)
    ensures StrictlySorted([a] + r)
  {
    forall i, j | 0 <= i < j < |[a] + r| ensures StrLt(([a] + r)[i], ([a] + r)[j]) {
      assert ([a] + r)[j] == r[j - 1];
      if i > 0 {
        assert ([a] + r)[i] == r[i - 1];
      } else {
        assert r[j - 1] in r;
      }
    }
  }

  /** Only the empty list has no elements. */
  lemma ElemsEmpty(s: seq<string>)
    ensures Elems(s) == {} <==> |s| == 0
  {
    if |s| > 0 {
      assert s[0] in Elems(s);
    }
  }

  lemma ElemsCons(s: seq<string>)
    requires |s| > 0
    ensures Elems(s) == {s[0]} + Elems(s[1..])
  {
    assert s == [s[0]] + s[1..];
  }

  /** Inserting keeps the list ascending and adds exactly `x` to its set. */
  lemma {:induction false} InsertSorted(s: seq<string>, x: string)
    requires StrictlySorted(s)
    ensures StrictlySorted(Insert(s, x))
    ensures Elems(Insert(s, x)) == Elems(s) + {x}
    decreases |s|
  {
    if |s| == 0 {
    } else if x == s[0] {
    } else if StrLt(x, s[0]) {
      InsertFront(s, x);
    } else {
      StrLtTotal(x, s[0]);
      assert StrictlySorted(s[1..]);
      InsertSorted(s[1..], x);
      InsertLater(s, x);
    }
  }

  /** Inserting below the head puts `x` in front. */
  lemma InsertFront(s: seq<string>, x: string)
    requires StrictlySorted(s) && |s| > 0 && StrLt(x, s[0])
    ensures StrictlySorted([x] + s)
    ensures Elems([x] + s) == Elems(s) + {x}
  {
    forall y | y in s ensures StrLt(x, y) {
      var j :| 0 <= j < |s| && s[j] == y;
      if j > 0 { StrLtTransitive(x, s[0], s[j]); }
    }
    SortedCons(x, s);
    ElemsCons([x] + s);
    assert ([x] + s)[1..] == s;
  }

  /** Inserting above the head keeps the head in front of the inserted tail. */
  lemma InsertLater(s: seq<string>, x: string)
    requires StrictlySorted(s) && |s| > 0 && StrLt(s[0], x)
    requires StrictlySorted(Insert(s[1..], x))
    requires Elems(Insert(s[1..], x)) == Elems(s[1..]) + {x}
    ensures StrictlySorted([s[0]] + Insert(s[1..], x))
    ensures Elems([s[0]] + Insert(s[1..], x)) == Elems(s) + {x}
  {
    var rest := Insert(s[1..], x);
    ElemsCons(s);
    forall y | y in rest ensures StrLt(s[0], y) {
      assert y in Elems(rest);
      if y != x {
        var j :| 0 <= j < |s[1..]| && s[1..][j] == y;
        assert s[j + 1] == y;
      }
    }
    SortedCons(s[0], rest);
    ElemsCons([s[0]] + rest);
    assert ([s[0]] + rest)[1..] == rest;
  }

  /** The ascending list of the distinct elements of `l`, built by inserting
      them one by one (what `sorted(set(l))` returns). */
  function SortedDistinct(l: seq<string>): seq<string>
    decreases |l|
  {
    if |l| == 0 then [] else Insert(SortedDistinct(l[..|l| - 1]), l[|l| - 1])
  }

  /** `SortedDistinct(l)` lists the elements of `l` in strictly ascending order. */
  lemma {:induction false} SortedDistinctSpec(l: seq<string>)
    ensures StrictlySorted(SortedDistinct(l))
    ensures Elems(SortedDistinct(l)) == Elems(l)
    decreases |l|
  {
    if |l| > 0 {
      var init := l[..|l| - 1];
      SortedDistinctSpec(init);
      InsertSorted(SortedDistinct(init), l[|l| - 1]);
      assert l == init + [l[|l| - 1]];
      assert Elems(l) == Elems(init) + {l[|l| - 1]};
    }
  }

  /** A set has exactly one strictly ascending listing. */
  lemma {:induction false} SortedUnique(a: seq<string>, b: seq<string>)
    requires StrictlySorted(a) && StrictlySorted(b)
    requires Elems(a) == Elems(b)
    ensures a == b
    decreases |a|
  {
    if |a| == 0 {
      ElemsEmpty(b);
    } else {
      assert a[0] in Elems(b);
      assert |b| > 0;
      assert b[0] in Elems(a);
      if a[0] != b[0] {
        var i :| 0 <= i < |a| && a[i] == b[0];
        var j :| 0 <= j < |b| && b[j] == a[0];
        assert i > 0 && j > 0;
        assert StrLt(a[0], b[0]);
        assert StrLt(b[0], a[0]);
        StrLtAsymmetric(a[0], b[0]);
      }
      assert Elems(a[1..]) == Elems(a) - {a[0]} by {
        assert a == [a[0]] + a[1..];
        forall k | 0 <= k < |a[1..]| ensures a[1..][k] != a[0] {
          assert StrLt(a[0], a[k + 1]);
          StrLtIrreflexive(a[0]);
        }
      }
      assert Elems(b[1..]) == Elems(b) - {b[0]} by {
        assert b == [b[0]] + b[1..];
        forall k | 0 <= k < |b[1..]| ensures b[1..][k] != b[0] {
          assert StrLt(b[0], b[k + 1]);
          StrLtIrreflexive(b[0]);
        }
      }
      SortedUnique(a[1..], b[1..]);
      assert a == [a[0]] + a[1..];
      assert b == [b[0]] + b[1..];
    }
  }

  // ---------------------------------------------------------------------------
  // Decimal numerals
  // ---------------------------------------------------------------------------

  predicate IsDigit(c: char) { '0' <= c <= '9' }

  function DigitChar(d: nat): (c: char)
    requires d < 10
    ensures IsDigit(c) && c as int - '0' as int == d
  {
    ('0' as int + d) as char
  }

  ghost predicate AllDigits(s: string) {
    forall i :: 0 <= i < |s| ==> IsDigit(s[i])
  }

  /** The decimal numeral of `n`, without leading zeros (Python `str(n)`). */
  function NatToString(n: nat): (r: string)
    ensures |r| > 0 && AllDigits(r)
    decreases n
  {
    if n < 10 then [DigitChar(n)] else NatToString(n / 10) + [DigitChar(n % 10)]
  }

  /** The value of a string of decimal digits. */
  function ParseNat(s: string): nat
    requires AllDigits(s)
    decreases |s|
  {
    if |s| == 0 then 0
    else ParseNat(s[..|s| - 1]) * 10 + (s[|s| - 1] as int - '0' as int)
  }

  /** Reading a numeral back gives the number it was printed from. */
  lemma {:induction false} ParseNatToString(n: nat)
    ensures ParseNat(NatToString(n)) == n
    decreases n
  {
    if n >= 10 {
      var s := NatToString(n);
      assert s[..|s| - 1] == NatToString(n / 10);
      ParseNatToString(n / 10);
    }
  }

  /** Three digits with leading zeros, for the groups after the first. */
  function Pad3(n: nat): (r: string)
    requires n < 1000
    ensures |r| == 3 && AllDigits(r)
  {
    [DigitChar(n / 100), DigitChar((n / 10) % 10), DigitChar(n % 10)]
  }

  /** Python `f"{n:,}"`: digits grouped in threes by commas. */
  function Thousands(n: nat): string
    decreases n
  {
    if n < 1000 then NatToString(n) else Thousands(n / 1000) + "," + Pad3(n % 1000)
  }

  function RemoveCommas(s: string): (r: string)
    decreases |s|
  {
    if |s| == 0 then ""
    else RemoveCommas(s[..|s| - 1]) + (if s[|s| - 1] == ',' then "" else [s[|s| - 1]])
  }

  lemma {:induction false} RemoveCommasAppend(a: string, b: string)
    ensures RemoveCommas(a + b) == RemoveCommas(a) + RemoveCommas(b)
    decreases |b|
  {
    if |b| > 0 {
      assert (a + b)[..|a + b| - 1] == a + b[..|b| - 1];
      RemoveCommasAppend(a, b[..|b| - 1]);
    } else {
      assert a + b == a;
    }
  }

  lemma {:induction false} RemoveCommasDigits(s: string)
    requires AllDigits(s)
    ensures RemoveCommas(s) == s
    decreases |s|
  {
    if |s| > 0 {
      RemoveCommasDigits(s[..|s| - 1]);
      assert s == s[..|s| - 1] + [s[|s| - 1]];
    }
  }

  /** Appending a digit to a numeral of a positive number is multiplying by
      ten and adding it. */
  lemma NatToStringStep(q: nat, d: nat)
    requires q > 0 && d < 10
    ensures NatToString(q * 10 + d) == NatToString(q) + [DigitChar(d)]
  {
    assert (q * 10 + d) / 10 == q;
    assert (q * 10 + d) % 10 == d;
  }

  /** The three decimal digits of a number below 1000. */
  lemma ThreeDigits(b: nat)
    requires b < 1000
    ensures b == (b / 100) * 100 + ((b / 10) % 10) * 10 + b % 10
  {
    assert b / 10 == (b / 100) * 10 + (b / 10) % 10;
  }

  lemma NatToStringGroup(a: nat, b: nat)
    requires a > 0 && b < 1000
    ensures NatToString(a * 1000 + b) == NatToString(a) + Pad3(b)
  {
    var d0, d1, d2 := b / 100, (b / 10) % 10, b % 10;
    var q1 := a * 10 + d0;
    var q2 := q1 * 10 + d1;
    ThreeDigits(b);
    assert q2 * 10 + d2 == a * 1000 + b;
    NatToStringStep(a, d0);
    NatToStringStep(q1, d1);
    NatToStringStep(q2, d2);
    assert Pad3(b) == [DigitChar(d0)] + [DigitChar(d1)] + [DigitChar(d2)];
  }

  /** The grouped numeral is the plain numeral with commas inserted. */
  lemma {:induction false} ThousandsDigits(n: nat)
    ensures RemoveCommas(Thousands(n)) == NatToString(n)
    decreases n
  {
    if n < 1000 {
      RemoveCommasDigits(NatToString(n));
    } else {
      var hi, lo := n / 1000, n % 1000;
      ThousandsDigits(hi);
      RemoveCommasAppend(Thousands(hi) + ",", Pad3(lo));
      RemoveCommasAppend(Thousands(hi), ",");
      assert RemoveCommas(",") == "" by {
        assert ","[..0] == "";
      }
      RemoveCommasDigits(Pad3(lo));
      NatToStringGroup(hi, lo);
    }
  }

  /** Reading the grouped numeral back, commas ignored, gives `n`. */
  lemma ThousandsRoundTrip(n: nat)
    ensures AllDigits(RemoveCommas(Thousands(n)))
    ensures ParseNat(RemoveCommas(Thousands(n))) == n
  {
    ThousandsDigits(n);
    ParseNatToString(n);
  }

  // ---------------------------------------------------------------------------
  // JavaScript `x.toFixed(0)` on a finite number below 1e21
  // ---------------------------------------------------------------------------

  /** The integer nearest to `x`, the larger one on a tie. */
  function RoundHalfUp(x: real): (n: nat)
    requires x >= 0.0
    ensures n as real - 0.5 <= x < n as real + 0.5
  {
    (x + 0.5).Floor
  }

  /** `x.toFixed(0)`: the sign is taken off first, so a tie rounds away from
      zero and a small negative prints as "-0". */
  function ToFixed0(x: real): string {
    if x < 0.0 then "-" + NatToString(RoundHalfUp(-x)) else NatToString(RoundHalfUp(x))
  }

  /** For a non-negative `x` the printed integer is within half a unit of `x`. */
  lemma ToFixed0Nearest(x: real)
    requires x >= 0.0
    ensures AllDigits(ToFixed0(x))
    ensures var n := ParseNat(ToFixed0(x)); n as real - 0.5 <= x < n as real + 0.5
  {
    ParseNatToString(RoundHalfUp(x));
  }
}
