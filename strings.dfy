/** Text helpers the exporters and the query builders rely on: Python's ordering of `str`
    values (what `sorted` uses), the sorted list of a collection of keys, `sep.join(parts)`,
    and counting the occurrences of a character. */
module Strings {

  /** Python's `a < b` on `str`: lexicographic on code points, a proper prefix first. */
  predicate Less(a: string, b: string)
    decreases |a|
  {
    if a == [] then b != []
    else if b == [] then false
    else if a[0] != b[0] then a[0] < b[0]
    else Less(a[1..], b[1..])
  }

  lemma {:induction false} LessIrreflexive(a: string)
    ensures !Less(a, a)
    decreases |a|
  {
    if a != [] {
      LessIrreflexive(a[1..]);
    }
  }

  lemma {:induction false} LessTransitive(a: string, b: string, c: string)
    requires Less(a, b) && Less(b, c)
    ensures Less(a, c)
    decreases |a|
  {
    if a != [] && a[0] == b[0] && b[0] == c[0] {
      LessTransitive(a[1..], b[1..], c[1..]);
    }
  }

  lemma {:induction false} LessTotal(a: string, b: string)
    requires a != b
    ensures Less(a, b) || Less(b, a)
    decreases |a|
  {
    if a != [] && b != [] && a[0] == b[0] {
      assert a == [a[0]] + a[1..] && b == [b[0]] + b[1..];
      LessTotal(a[1..], b[1..]);
    }
  }

  lemma {:induction false} LessAsymmetric(a: string, b: string)
    requires Less(a, b)
    ensures !Less(b, a)
    decreases |a|
  {
    if a != [] && b != [] && a[0] == b[0] {
      LessAsymmetric(a[1..], b[1..]);
    }
  }

  /** Comparing two concatenations whose first parts have the same length: the first parts
      decide, and the second parts only when the first parts are equal. */
  lemma {:induction false} LessConcat(a: string, b: string, c: string, d: string)
    requires |a| == |c|
    ensures Less(a + b, c + d) <==> Less(a, c) || (a == c && Less(b, d))
    decreases |a|
  {
    if a == [] {
      assert a + b == b && c + d == d;
    } else {
      assert (a + b)[0] == a[0] && (c + d)[0] == c[0];
      assert (a + b)[1..] == a[1..] + b && (c + d)[1..] == c[1..] + d;
      LessConcat(a[1..], b, c[1..], d);
      if a[0] == c[0] {
        assert a == [a[0]] + a[1..] && c == [c[0]] + c[1..];
      }
    }
  }

  /** Each element is smaller than every later one, hence also no repeats. */
  predicate StrictlyAscending(s: seq<string>)
  {
    forall i, j :: 0 <= i < j < |s| ==> Less(s[i], s[j])
  }

  /** `k` put into its place in an ascending list; a key already present is not repeated. */
  function Insert(sorted: seq<string>, k: string): (r: seq<string>)
    requires StrictlyAscending(sorted)
    ensures StrictlyAscending(r)
    ensures forall x :: x in r <==> x in sorted || x == k
    ensures |r| == if k in sorted then |sorted| else |sorted| + 1
  {
    if sorted == [] then [k]
    else if k == sorted[0] then sorted
    else if Less(k, sorted[0]) then
      InsertBefore(sorted, k);
      [k] + sorted
    else
      var rest := Insert(sorted[1..], k);
      LessTotal(k, sorted[0]);
      assert forall x :: x in rest ==> Less(sorted[0], x);
      assert k in sorted <==> k in sorted[1..];
      [sorted[0]] + rest
  }

  lemma InsertBefore(sorted: seq<string>, k: string)
    requires StrictlyAscending(sorted) && sorted != [] && Less(k, sorted[0])
    ensures StrictlyAscending([k] + sorted) && k !in sorted
  {
    forall j | 0 < j < |sorted| ensures Less(k, sorted[j]) {
      LessTransitive(k, sorted[0], sorted[j]);
    }
    if k in sorted {
      LessIrreflexive(k);
    }
  }

  /** `sorted(keys)` for keys without repeats: the same keys, in ascending order. */
  function SortedKeys(keys: seq<string>): (r: seq<string>)
    ensures StrictlyAscending(r)
    ensures forall x :: x in r <==> x in keys
  {
    if keys == [] then [] else Insert(SortedKeys(keys[..|keys| - 1]), keys[|keys| - 1])
  }

  /** A strictly ascending list holds no key twice. */
  lemma AscendingDistinct(s: seq<string>, i: int, j: int)
    requires StrictlyAscending(s) && 0 <= i < |s| && 0 <= j < |s| && i != j
    ensures s[i] != s[j]
  {
    if i < j {
      if s[i] == s[j] { LessIrreflexive(s[i]); }
    } else {
      if s[i] == s[j] { LessIrreflexive(s[j]); }
    }
  }

  /** Python's `sep.join(parts)`. */
  function Join(parts: seq<string>, sep: string): string
  {
    if parts == [] then ""
    else if |parts| == 1 then parts[0]
    else Join(parts[..|parts| - 1], sep) + sep + parts[|parts| - 1]
  }

  function CountChar(s: string, c: char): nat
  {
    if s == [] then 0 else CountChar(s[..|s| - 1], c) + (if s[|s| - 1] == c then 1 else 0)
  }

  lemma {:induction false} CountCharAppend(a: string, b: string, c: char)
    ensures CountChar(a + b, c) == CountChar(a, c) + CountChar(b, c)
    decreases |b|
  {
    if b == [] {
      assert a + b == a;
    } else {
      var b' := b[..|b| - 1];
      assert (a + b)[..|a + b| - 1] == a + b';
      CountCharAppend(a, b', c);
    }
  }

  /** Joining with a separator free of `c` adds no occurrence of `c`. */
  lemma {:induction false} CountCharJoin(parts: seq<string>, sep: string, c: char)
    requires CountChar(sep, c) == 0
    ensures CountChar(Join(parts, sep), c) == SumCounts(parts, c)
    decreases |parts|
  {
    if |parts| > 1 {
      var init, last := parts[..|parts| - 1], parts[|parts| - 1];
      assert Join(parts, sep) == Join(init, sep) + sep + last;
      assert SumCounts(parts, c) == SumCounts(init, c) + CountChar(last, c);
      CountCharJoin(init, sep, c);
      CountCharAppend(Join(init, sep) + sep, last, c);
      CountCharAppend(Join(init, sep), sep, c);
    } else if |parts| == 1 {
      assert parts[..0] == [];
    }
  }

  function SumCounts(parts: seq<string>, c: char): nat
  {
    if parts == [] then 0 else SumCounts(parts[..|parts| - 1], c) + CountChar(parts[|parts| - 1], c)
  }
}
