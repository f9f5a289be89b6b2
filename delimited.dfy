/** Slash-separated text: main.py builds the attack field by appending each
    entry and a "/" after every entry but the last. */
module Delimited {

  const Sep: char := '/'

  /** The entries of `xs` with a separator between neighbours and none before
      the first or after the last. */
  function Join(xs: seq<string>): (s: string)
  {
    if xs == [] then ""
    else if |xs| == 1 then xs[0]
    else xs[0] + [Sep] + Join(xs[1..])
  }

  /** Cuts `s` at every separator (Python's `s.split("/")`). The partner of
      Join. */
  function Split(s: string): (r: seq<string>)
    ensures |r| > 0
    decreases |s|
  {
    if s == [] then [""]
    else
      var rest := Split(s[1..]);
      if s[0] == Sep then [""] + rest
      else [[s[0]] + rest[0]] + rest[1..]
  }

  predicate NoSep(x: string) { Sep !in x }

  /** Appending one entry to a joined sequence adds one separator before it. */
  lemma {:induction false} JoinSnoc(xs: seq<string>, x: string)
    ensures Join(xs + [x]) == if xs == [] then x else Join(xs) + [Sep] + x
    decreases |xs|
  {
    if |xs| >= 2 {
      assert (xs + [x])[1..] == xs[1..] + [x];
      JoinSnoc(xs[1..], x);
    } else if |xs| == 1 {
      assert xs + [x] == [xs[0], x];
    }
  }

  /** A piece without separators stays whole. */
  lemma {:induction false} SplitPiece(x: string)
    requires NoSep(x)
    ensures Split(x) == [x]
    decreases |x|
  {
    if x != [] {
      SplitPiece(x[1..]);
      assert [x[0]] + x[1..] == x;
    }
  }

  /** A piece without separators followed by a separator splits off first. */
  lemma {:induction false} SplitCons(x: string, t: string)
    requires NoSep(x)
    ensures Split(x + [Sep] + t) == [x] + Split(t)
    decreases |x|
  {
    if x == [] {
      assert x + [Sep] + t == [Sep] + t;
      assert ([Sep] + t)[1..] == t;
    } else {
      var s := x + [Sep] + t;
      assert s[1..] == x[1..] + [Sep] + t;
      SplitCons(x[1..], t);
      assert [x[0]] + x[1..] == x;
    }
  }

  /** Round trip: splitting the joined text gives back the entries, provided
      there is at least one entry and none contains a separator (an empty
      sequence and a single empty entry both join to ""). */
  lemma {:induction false} SplitJoin(xs: seq<string>)
    requires |xs| > 0
    requires forall i :: 0 <= i < |xs| ==> NoSep(xs[i])
    ensures Split(Join(xs)) == xs
    decreases |xs|
  {
    if |xs| == 1 {
      SplitPiece(xs[0]);
    } else {
      SplitJoin(xs[1..]);
      SplitCons(xs[0], Join(xs[1..]));
      assert [xs[0]] + xs[1..] == xs;
    }
  }

  /** The loop of main.py:102-106 and main.py:122-126: append each entry, and
      a separator unless it is the last one. */
  method JoinWithSlash(xs: seq<string>) returns (s: string)
    ensures s == Join(xs)
  {
    s := "";
    var index := 0;
    while index < |xs|
      invariant 0 <= index <= |xs|
      invariant s == Join(xs[..index]) + if 0 < index < |xs| then [Sep] else []
    {
      JoinSnoc(xs[..index], xs[index]);
      assert xs[..index + 1] == xs[..index] + [xs[index]];
      s := s + xs[index];
      if index != |xs| - 1 {
        s := s + [Sep];
      }
      index := index + 1;
    }
    assert xs[..index] == xs;
  }
}
