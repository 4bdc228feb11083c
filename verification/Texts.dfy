/** Substrings, white space and ordering of strings, as Python and JavaScript have them. */
module Texts {

  predicate Includes(text: string, part: string) {
    exists i :: 0 <= i <= |text| && part <= text[i..]
  }

  /** The characters `str.isspace` accepts. */
  predicate IsSpace(c: char) {
    || '\t' <= c <= '\r'
    || '\U{1c}' <= c <= ' '
    || c == '\U{85}' || c == '\U{a0}' || c == '\U{1680}'
    || '\U{2000}' <= c <= '\U{200a}'
    || c == '\U{2028}' || c == '\U{2029}' || c == '\U{202f}' || c == '\U{205f}' || c == '\U{3000}'
  }

  function Strip(s: string): (r: string)
    ensures |r| <= |s|
    decreases |s|
  {
    if s == "" then ""
    else if IsSpace(s[0]) then Strip(s[1..])
    else if IsSpace(s[|s| - 1]) then Strip(s[..|s| - 1])
    else s
  }

  predicate IsBlank(s: string) { forall i :: 0 <= i < |s| ==> IsSpace(s[i]) }

  lemma BlankEnds(s: string)
    requires s != ""
    ensures IsBlank(s) <==> IsSpace(s[0]) && IsBlank(s[1..])
    ensures IsBlank(s) <==> IsBlank(s[..|s| - 1]) && IsSpace(s[|s| - 1])
  {
    assert forall i :: 0 < i < |s| ==> s[1..][i - 1] == s[i];
    assert forall i :: 0 <= i < |s| - 1 ==> s[..|s| - 1][i] == s[i];
  }

  /** A text without the white space at both ends, all of it. */
  predicate IsStripped(s: string, lo: nat, hi: nat, r: string) {
    && lo <= hi <= |s| && r == s[lo..hi] && IsBlank(s[..lo]) && IsBlank(s[hi..])
    && (if lo == hi then IsBlank(s) else !IsSpace(s[lo]) && !IsSpace(s[hi - 1]))
  }

  lemma FrontCut(s: string, lo: nat, hi: nat, r: string)
    requires s != "" && IsSpace(s[0]) && IsStripped(s[1..], lo, hi, r)
    ensures IsStripped(s, lo + 1, hi + 1, r)
  {
    assert s[..lo + 1][1..] == s[1..][..lo] && s[hi + 1..] == s[1..][hi..];
    BlankEnds(s[..lo + 1]);
    BlankEnds(s);
  }

  lemma BackCut(s: string, lo: nat, hi: nat, r: string)
    requires s != "" && IsSpace(s[|s| - 1]) && IsStripped(s[..|s| - 1], lo, hi, r)
    ensures IsStripped(s, lo, hi, r)
  {
    assert s[hi..][..|s| - hi - 1] == s[..|s| - 1][hi..] && s[..lo] == s[..|s| - 1][..lo];
    BlankEnds(s[hi..]);
    BlankEnds(s);
  }

  lemma {:induction false} StripCutsTheEnds(s: string) returns (lo: nat, hi: nat)
    ensures IsStripped(s, lo, hi, Strip(s))
    decreases |s|
  {
    lo, hi := 0, |s|;
    if s != "" && IsSpace(s[0]) {
      lo, hi := StripCutsTheEnds(s[1..]);
      FrontCut(s, lo, hi, Strip(s));
      lo, hi := lo + 1, hi + 1;
    } else if s != "" && IsSpace(s[|s| - 1]) {
      lo, hi := StripCutsTheEnds(s[..|s| - 1]);
      BackCut(s, lo, hi, Strip(s));
    }
  }

  /** A text that strips to nothing is blank, and one that neither starts nor ends with white space stays. */
  lemma {:induction false} StripExactly(s: string)
    ensures Strip(s) == "" <==> IsBlank(s)
    ensures Strip(s) == s <==> s == "" || (!IsSpace(s[0]) && !IsSpace(s[|s| - 1]))
  {
    var lo, hi := StripCutsTheEnds(s);
    if lo > 0 {
      BlankEnds(s[..lo]);
    }
    if hi < |s| {
      BlankEnds(s[hi..]);
    }
  }

  /** What a stripped text mentions, the text mentions. */
  lemma {:induction false} StripKeepsMentions(s: string, part: string)
    requires Includes(Strip(s), part)
    ensures Includes(s, part)
    decreases |s|
  {
    if s != "" {
      if IsSpace(s[0]) {
        StripKeepsMentions(s[1..], part);
        var i :| 0 <= i <= |s[1..]| && part <= s[1..][i..];
        assert s[1..][i..] == s[i + 1..];
      } else if IsSpace(s[|s| - 1]) {
        StripKeepsMentions(s[..|s| - 1], part);
        var i :| 0 <= i <= |s[..|s| - 1]| && part <= s[..|s| - 1][i..];
        assert s[i..][..|s| - 1 - i] == s[..|s| - 1][i..];
      }
    }
  }

  // ---- sorting

  /** Code-point order. */
  predicate LexLe(a: string, b: string) {
    a == "" || (b != "" && (a[0] < b[0] || (a[0] == b[0] && LexLe(a[1..], b[1..]))))
  }

  /** The texts are alike up to a position, and the first has the smaller character there. */
  predicate SmallerAt(a: string, b: string, k: nat) { k < |a| && k < |b| && a[..k] == b[..k] && a[k] < b[k] }

  lemma SmallerStep(a: string, b: string, k: nat)
    requires a != "" && b != "" && a[0] == b[0]
    ensures SmallerAt(a, b, k + 1) <==> SmallerAt(a[1..], b[1..], k)
    ensures !SmallerAt(a, b, 0)
  {
    if k < |a| - 1 && k < |b| - 1 {
      assert a[..k + 1] == [a[0]] + a[1..][..k] && b[..k + 1] == [b[0]] + b[1..][..k];
      if a[..k + 1] == b[..k + 1] {
        assert a[..k + 1][1..] == a[1..][..k] && b[..k + 1][1..] == b[1..][..k];
      }
    }
  }

  /** A text is before another if it is a prefix of it, or has the smaller character where they first differ. */
  lemma {:induction false} LexExactly(a: string, b: string)
    ensures LexLe(a, b) <==> a <= b || exists k: nat :: SmallerAt(a, b, k)
  {
    if a != "" && b != "" && a[0] == b[0] {
      LexExactly(a[1..], b[1..]);
      assert a == [a[0]] + a[1..] && b == [b[0]] + b[1..];
      if k: nat :| SmallerAt(a[1..], b[1..], k) {
        SmallerStep(a, b, k);
        assert SmallerAt(a, b, k + 1);
      }
      if k: nat :| SmallerAt(a, b, k) {
        SmallerStep(a, b, if k == 0 then 0 else k - 1);
      }
    } else if a != "" && b != "" {
      DifferAtOnce(a, b);
    }
  }

  lemma DifferAtOnce(a: string, b: string)
    requires a != "" && b != "" && a[0] != b[0]
    ensures a[0] < b[0] <==> exists k: nat :: SmallerAt(a, b, k)
  {
    assert a[..0] == b[..0];
    assert a[0] < b[0] ==> SmallerAt(a, b, 0);
    forall k: nat | 0 < k < |a| && k < |b| ensures !SmallerAt(a, b, k) {
      assert a[..k][0] == a[0] && b[..k][0] == b[0];
    }
  }

  function Insert(x: string, s: seq<string>): seq<string> {
    if s == [] || LexLe(x, s[0]) then [x] + s else [s[0]] + Insert(x, s[1..])
  }

  function Sort(s: seq<string>): seq<string> {
    if s == [] then [] else Insert(s[0], Sort(s[1..]))
  }

  predicate Ordered(s: seq<string>) { forall i :: 0 <= i < |s| - 1 ==> LexLe(s[i], s[i + 1]) }

  lemma {:induction false} LexTotal(a: string, b: string)
    ensures LexLe(a, b) || LexLe(b, a)
  {
    if a != "" && b != "" && a[0] == b[0] {
      LexTotal(a[1..], b[1..]);
    }
  }

  lemma {:induction false} InsertKeeps(x: string, s: seq<string>)
    ensures multiset(Insert(x, s)) == multiset([x] + s)
  {
    if s != [] && !LexLe(x, s[0]) {
      InsertKeeps(x, s[1..]);
      assert s == [s[0]] + s[1..];
    }
  }

  lemma {:induction false} ConsOrdered(x: string, s: seq<string>)
    requires Ordered(s) && (s != [] ==> LexLe(x, s[0]))
    ensures Ordered([x] + s)
  {
    forall i | 0 <= i < |[x] + s| - 1 ensures LexLe(([x] + s)[i], ([x] + s)[i + 1]) {
      if i > 0 {
        assert ([x] + s)[i] == s[i - 1] && ([x] + s)[i + 1] == s[i - 1 + 1];
      }
    }
  }

  lemma {:induction false} InsertOrders(x: string, s: seq<string>)
    requires Ordered(s)
    ensures Ordered(Insert(x, s)) && Insert(x, s)[0] in [x] + s[..if s == [] then 0 else 1]
  {
    if s == [] || LexLe(x, s[0]) {
      ConsOrdered(x, s);
    } else {
      LexTotal(x, s[0]);
      assert forall i :: 0 <= i < |s[1..]| ==> s[1..][i] == s[i + 1];
      InsertOrders(x, s[1..]);
      ConsOrdered(s[0], Insert(x, s[1..]));
    }
  }

  /** Sorting keeps every element as often as it was, in order. */
  lemma {:induction false} SortSorts(s: seq<string>)
    ensures Ordered(Sort(s)) && multiset(Sort(s)) == multiset(s) && |Sort(s)| == |s|
  {
    if s != [] {
      SortSorts(s[1..]);
      InsertKeeps(s[0], Sort(s[1..]));
      InsertOrders(s[0], Sort(s[1..]));
      assert s == [s[0]] + s[1..];
      assert |multiset(Sort(s))| == |Sort(s)| && |multiset(s)| == |s|;
    }
  }

  lemma {:induction false} SortMember(s: seq<string>, x: string)
    ensures x in Sort(s) <==> x in s
  {
    SortSorts(s);
    assert x in multiset(Sort(s)) <==> x in multiset(s);
  }

  // ---- duplicates

  /** Each element once, at its first occurrence: `new Set(s)` spread, or a set about to be sorted. */
  function Distinct(s: seq<string>): seq<string> {
    if s == [] then []
    else
      var before := Distinct(s[..|s| - 1]); var last := s[|s| - 1];
      if last in before then before else before + [last]
  }

  predicate NoRepeats(s: seq<string>) { forall i, j :: 0 <= i < j < |s| ==> s[i] != s[j] }

  function Elements(s: seq<string>): set<string> { set x | x in s }

  lemma {:induction false} NoRepeatsSize(s: seq<string>)
    requires NoRepeats(s)
    ensures |Elements(s)| == |s|
  {
    if s != [] {
      var front, last := s[..|s| - 1], s[|s| - 1];
      NoRepeatsSize(front);
      assert Elements(s) == Elements(front) + {last};
      assert last !in front;
    }
  }

  /** The same elements, none twice; nothing changes exactly when nothing was repeated. */
  lemma {:induction false} DistinctKeeps(s: seq<string>)
    ensures NoRepeats(Distinct(s)) && (forall x :: x in Distinct(s) <==> x in s)
    ensures |Distinct(s)| <= |s| && (|Distinct(s)| == |s| <==> NoRepeats(s)) && (NoRepeats(s) ==> Distinct(s) == s)
  {
    if s != [] {
      var front, last := s[..|s| - 1], s[|s| - 1];
      DistinctKeeps(front);
      assert s == front + [last];
      assert last in front <==> exists i :: 0 <= i < |s| - 1 && s[i] == last;
    }
  }

  // ---- selection

  /** The elements a comprehension keeps, in order. */
  function Select(items: seq<string>, wanted: string -> bool): seq<string> {
    if items == [] then []
    else Select(items[..|items| - 1], wanted) + if wanted(items[|items| - 1]) then [items[|items| - 1]] else []
  }

  lemma {:induction false} Selected(s: seq<string>, wanted: string -> bool)
    ensures forall x :: x in Select(s, wanted) <==> x in s && wanted(x)
  {
    if s != [] {
      Selected(s[..|s| - 1], wanted);
      assert s == s[..|s| - 1] + [s[|s| - 1]];
    }
  }

  lemma {:induction false} SortKeepsNoRepeats(s: seq<string>)
    requires NoRepeats(s)
    ensures NoRepeats(Sort(s))
  {
    SortSorts(s);
    var sorted := Sort(s);
    forall i, j | 0 <= i < j < |sorted| ensures sorted[i] != sorted[j] {
      if sorted[i] == sorted[j] {
        TwiceThenCounted(sorted, i, j);
        OnceWithoutRepeats(s, sorted[i]);
      }
    }
  }

  lemma TwiceThenCounted(s: seq<string>, i: nat, j: nat)
    requires i < j < |s| && s[i] == s[j]
    ensures multiset(s)[s[i]] >= 2
  {
    assert s == s[..j] + s[j..];
    assert s[..j][i] == s[i] && s[j..][0] == s[j];
    assert multiset(s) == multiset(s[..j]) + multiset(s[j..]);
  }

  lemma {:induction false} OnceWithoutRepeats(s: seq<string>, x: string)
    requires NoRepeats(s)
    ensures multiset(s)[x] <= 1
  {
    if s != [] {
      var front, last := s[..|s| - 1], s[|s| - 1];
      OnceWithoutRepeats(front, x);
      assert s == front + [last];
      assert last !in front;
    }
  }

  // ---- splitting

  function SplitAt(s: string, separator: char): (parts: seq<string>)
    ensures parts != []
  {
    if s == "" then [""]
    else
      var front := SplitAt(s[..|s| - 1], separator); var c := s[|s| - 1];
      if c == separator then front + [""] else front[|front| - 1 := front[|front| - 1] + [c]]
  }

  /** Parts with a separator between any two. */
  function JoinBy(parts: seq<string>, separator: char): string
    requires parts != []
  {
    if |parts| == 1 then parts[0] else parts[0] + [separator] + JoinBy(parts[1..], separator)
  }

  predicate Unseparated(parts: seq<string>, separator: char) {
    forall i :: 0 <= i < |parts| ==> separator !in parts[i]
  }

  lemma {:induction false} SplitWhole(s: string, separator: char)
    requires separator !in s
    ensures SplitAt(s, separator) == [s]
  {
    if s != "" {
      SplitWhole(s[..|s| - 1], separator);
      assert s == s[..|s| - 1] + [s[|s| - 1]];
    }
  }

  lemma {:induction false} SplitOneMore(s: string, separator: char, c: char)
    ensures var parts := SplitAt(s, separator);
            SplitAt(s + [c], separator)
            == if c == separator then parts + [""] else parts[|parts| - 1 := parts[|parts| - 1] + [c]]
  {
    assert (s + [c])[..|s|] == s;
  }

  lemma LastOfBoth(a: seq<string>, b: seq<string>, c: char)
    requires b != []
    ensures (a + b)[|a + b| - 1 := (a + b)[|a + b| - 1] + [c]] == a + b[|b| - 1 := b[|b| - 1] + [c]]
    ensures (a + b) + [""] == a + (b + [""])
  {
  }

  lemma {:induction false} SplitBehind(a: string, separator: char, b: string)
    ensures SplitAt(a + [separator] + b, separator) == SplitAt(a, separator) + SplitAt(b, separator)
  {
    if b == "" {
      assert a + [separator] + b == a + [separator];
      SplitOneMore(a, separator, separator);
    } else {
      var front, c := b[..|b| - 1], b[|b| - 1];
      assert a + [separator] + b == a + [separator] + front + [c] && b == front + [c];
      SplitBehind(a, separator, front);
      SplitOneMore(a + [separator] + front, separator, c);
      SplitOneMore(front, separator, c);
      LastOfBoth(SplitAt(a, separator), SplitAt(front, separator), c);
    }
  }

  /** Splitting takes back joining: the parts are those with the separator between them and none inside. */
  lemma {:induction false} SplitOfJoined(parts: seq<string>, separator: char)
    requires parts != [] && Unseparated(parts, separator)
    ensures SplitAt(JoinBy(parts, separator), separator) == parts
  {
    SplitWhole(parts[0], separator);
    if |parts| == 1 {
      assert parts == [parts[0]];
    } else {
      SplitOfJoined(parts[1..], separator);
      SplitBehind(parts[0], separator, JoinBy(parts[1..], separator));
      assert parts == [parts[0]] + parts[1..];
    }
  }

  lemma {:induction false} JoinOfSplit(s: string, separator: char)
    ensures Unseparated(SplitAt(s, separator), separator) && JoinBy(SplitAt(s, separator), separator) == s
    decreases |s|
  {
    if separator in s {
      var i :| 0 <= i < |s| && s[i] == separator;
      var a, b := s[..i], s[i + 1..];
      assert s == a + [separator] + b;
      SplitBehind(a, separator, b);
      JoinOfSplit(a, separator);
      JoinOfSplit(b, separator);
      JoinAppends(SplitAt(a, separator), SplitAt(b, separator), separator);
    } else {
      SplitWhole(s, separator);
    }
  }

  lemma {:induction false} JoinAppends(a: seq<string>, b: seq<string>, separator: char)
    requires a != [] && b != []
    ensures JoinBy(a + b, separator) == JoinBy(a, separator) + [separator] + JoinBy(b, separator)
  {
    if |a| == 1 {
      assert (a + b)[1..] == b;
    } else {
      assert (a + b)[1..] == a[1..] + b;
      JoinAppends(a[1..], b, separator);
      Reassociate(a[0] + [separator], JoinBy(a[1..], separator), [separator] + JoinBy(b, separator));
      Reassociate(JoinBy(a[1..], separator), [separator], JoinBy(b, separator));
      Reassociate(JoinBy(a, separator), [separator], JoinBy(b, separator));
    }
  }

  lemma Reassociate(a: string, b: string, c: string)
    ensures (a + b) + c == a + (b + c)
  {
  }
}
