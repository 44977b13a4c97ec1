/** Guava's `Joiner`: `Join` glues parts with a separator, `SkipAbsent`
    is `skipNulls()`. `Split` is the model-side inverse used to state that
    joining loses no segment boundaries. */
module Joiner {
  import opened Wrappers

  /** `Joiner.on(sep).join(parts)`: the parts in order, `sep` between neighbours. */
  function Join(sep: string, parts: seq<string>): (r: string)
    ensures |parts| == 0 ==> r == []
    ensures |parts| == 1 ==> r == parts[0]
    ensures |parts| >= 1 ==> |parts[0]| <= |r| && r[..|parts[0]|] == parts[0]
  {
    if |parts| == 0 then []
    else if |parts| == 1 then parts[0]
    else parts[0] + sep + Join(sep, parts[1..])
  }

  /** `skipNulls()`: the present values, in their original order. */
  function SkipAbsent(parts: seq<Option<string>>): (r: seq<string>)
    ensures |r| <= |parts|
  {
    if |parts| == 0 then []
    else
      var rest := SkipAbsent(parts[1..]);
      if parts[0].Some? then [parts[0].value] + rest else rest
  }

  /** The kept values are exactly the present ones. */
  lemma {:induction false} SkipAbsentMember(parts: seq<Option<string>>)
    ensures forall s :: s in SkipAbsent(parts) <==> Some(s) in parts
    decreases |parts|
  {
    if |parts| > 0 {
      SkipAbsentMember(parts[1..]);
      assert parts == [parts[0]] + parts[1..];
    }
  }

  /** Absent entries contribute nothing: a present value followed by the rest. */
  lemma SkipAbsentCons(p: Option<string>, ps: seq<Option<string>>)
    ensures SkipAbsent([p] + ps) == (if p.Some? then [p.value] else []) + SkipAbsent(ps)
  {
    assert ([p] + ps)[1..] == ps;
  }

  /** A first part followed by more parts: the first, the separator, then the rest joined. */
  lemma JoinCons(sep: string, p: string, ps: seq<string>)
    requires |ps| >= 1
    ensures Join(sep, [p] + ps) == p + sep + Join(sep, ps)
  {
    assert ([p] + ps)[1..] == ps;
  }

  /** Appending one more part extends the joined string by the separator and that part. */
  lemma {:induction false} JoinSnoc(sep: string, parts: seq<string>, last: string)
    requires |parts| >= 1
    ensures Join(sep, parts + [last]) == Join(sep, parts) + sep + last
    decreases |parts|
  {
    if |parts| > 1 {
      assert (parts + [last])[1..] == parts[1..] + [last];
      JoinSnoc(sep, parts[1..], last);
    } else {
      assert (parts + [last])[1..] == [last];
    }
  }

  /** Splits `s` at every occurrence of `c`; always yields at least one segment. */
  function Split(c: char, s: string): (r: seq<string>)
    ensures |r| >= 1
  {
    if |s| == 0 then [[]]
    else
      var tail := Split(c, s[1..]);
      if s[0] == c then [[]] + tail
      else [[s[0]] + tail[0]] + tail[1..]
  }

  lemma {:induction false} SplitFree(c: char, p: string)
    requires c !in p
    ensures Split(c, p) == [p]
    decreases |p|
  {
    if |p| > 0 {
      SplitFree(c, p[1..]);
      assert [p[0]] + p[1..] == p;
    }
  }

  lemma {:induction false} SplitAt(c: char, p: string, rest: string)
    requires c !in p
    ensures Split(c, p + [c] + rest) == [p] + Split(c, rest)
    decreases |p|
  {
    if |p| == 0 {
      assert p + [c] + rest == [c] + rest;
      assert ([c] + rest)[1..] == rest;
    } else {
      var s := p + [c] + rest;
      assert s[1..] == p[1..] + [c] + rest;
      SplitAt(c, p[1..], rest);
      assert [p[0]] + p[1..] == p;
    }
  }

  /** Joining segments free of the separator and splitting again gives the segments back. */
  lemma {:induction false} SplitJoin(c: char, parts: seq<string>)
    requires |parts| >= 1
    requires forall i | 0 <= i < |parts| :: c !in parts[i]
    ensures Split(c, Join([c], parts)) == parts
    decreases |parts|
  {
    if |parts| == 1 {
      SplitFree(c, parts[0]);
    } else {
      SplitAt(c, parts[0], Join([c], parts[1..]));
      SplitJoin(c, parts[1..]);
      assert [parts[0]] + parts[1..] == parts;
    }
  }
}
