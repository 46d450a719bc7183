/**
  Values and sequence operations shared by the HomeHub model: the optional and
  remote-reply wrappers, the JavaScript `||` fallback on strings, `Math.max(0, ...ids)`,
  `Array.prototype.filter` and `String.prototype.split` on a one-character separator.

  Absent optional strings (null, undefined) and the empty string are all falsy in
  JavaScript, and every use of them in the modelled code treats them alike, so
  they are all modelled as "".
 */
module Common {

  datatype Option<T> = None | Some(value: T)

  /** The `{ data, error }` pair of a remote query: either an error message or data that may be null. */
  datatype Reply<T> = Ok(data: Option<T>) | Err(message: string)

  /** A listing as the data helpers return it: rows plus an optional error message. */
  datatype Listing<T> = Listing(data: seq<T>, error: Option<string>)

  /** A single-record answer of a data helper: a record or null, plus an optional error message. */
  datatype Outcome<T> = Outcome(data: Option<T>, error: Option<string>)

  /** JavaScript `s || fallback` for strings. */
  function OrElse(s: string, fallback: string): string
  {
    if s != "" then s else fallback
  }

  function Max(a: int, b: int): int
  {
    if a >= b then a else b
  }

  /** `Math.max(0, ...xs)`: the largest element, or 0 when every element is smaller or there are none. */
  function MaxOrZero(xs: seq<int>): (m: int)
    ensures m >= 0
    ensures forall i :: 0 <= i < |xs| ==> xs[i] <= m
    ensures m == 0 || m in xs
  {
    if xs == [] then 0 else Max(xs[0], MaxOrZero(xs[1..]))
  }

  /** The id handed to a new list entry: `Math.max(0, ...ids) + 1`. */
  function NextId(ids: seq<int>): int
  {
    MaxOrZero(ids) + 1
  }

  /** The next id is at least 1 and is not used by any existing entry. */
  lemma NextIdIsFresh(ids: seq<int>)
    ensures NextId(ids) >= 1
    ensures NextId(ids) !in ids
  {
  }

  // ---------------------------------------------------------------------------
  // Array.prototype.map

  /** `s.map(f)`: one image per element, in the same order. */
  function Map<T, U>(s: seq<T>, f: T -> U): (r: seq<U>)
    ensures |r| == |s|
    ensures forall i :: 0 <= i < |s| ==> r[i] == f(s[i])
  {
    seq(|s|, i requires 0 <= i < |s| => f(s[i]))
  }

  // ---------------------------------------------------------------------------
  // Array.prototype.filter

  /** The elements of `s` that satisfy `p`, in their order in `s`. */
  function Filter<T>(s: seq<T>, p: T -> bool): (r: seq<T>)
    ensures |r| <= |s|
    ensures forall x :: x in r ==> x in s && p(x)
  {
    if s == [] then []
    else if p(s[0]) then [s[0]] + Filter(s[1..], p)
    else Filter(s[1..], p)
  }

  /** Everything in `s` that satisfies `p` is kept. */
  lemma {:induction false} FilterKeeps<T>(s: seq<T>, p: T -> bool, x: T)
    requires x in s && p(x)
    ensures x in Filter(s, p)
  {
    if s[0] != x {
      FilterKeeps(s[1..], p, x);
    }
  }

  /** Filtering leaves nothing exactly when no element satisfies `p`. */
  lemma {:induction false} FilterEmpty<T>(s: seq<T>, p: T -> bool)
    ensures Filter(s, p) == [] <==> forall i :: 0 <= i < |s| ==> !p(s[i])
  {
    if s != [] {
      FilterEmpty(s[1..], p);
      assert forall i :: 1 <= i < |s| ==> s[1..][i - 1] == s[i];
    }
  }

  /** Filtering a list with a given first element decides that element, then filters the rest. */
  lemma FilterCons<T>(x: T, t: seq<T>, p: T -> bool)
    ensures Filter([x] + t, p) == (if p(x) then [x] else []) + Filter(t, p)
  {
    assert ([x] + t)[1..] == t;
  }

  /** Filtering a concatenation filters each part and keeps them in order. */
  lemma {:induction false} FilterConcat<T>(a: seq<T>, b: seq<T>, p: T -> bool)
    ensures Filter(a + b, p) == Filter(a, p) + Filter(b, p)
  {
    if a == [] {
      assert a + b == b;
    } else {
      var x, t := a[0], a[1..];
      FilterConcat(t, b, p);
      Uncons(a, b);
      FilterCons(x, t + b, p);
      FilterCons(x, t, p);
      AppendAssoc(if p(x) then [x] else [], Filter(t, p), Filter(b, p));
    }
  }

  /** A non-empty list is its head before its tail, also in front of another list. */
  lemma Uncons<T>(a: seq<T>, b: seq<T>)
    requires a != []
    ensures [a[0]] + a[1..] == a && [a[0]] + (a[1..] + b) == a + b
  {
  }

  /** A list that is the head of `s` before the tail of `s` is `s`. */
  lemma HeadThenTail<T>(r: seq<T>, tail: seq<T>, s: seq<T>)
    requires s != [] && r == [s[0]] + tail && tail == s[1..]
    ensures r == s
  {
  }

  lemma AppendAssoc<T>(a: seq<T>, b: seq<T>, c: seq<T>)
    ensures a + (b + c) == (a + b) + c
  {
  }

  /** When every element satisfies `p`, filtering changes nothing. */
  lemma {:induction false} FilterAll<T>(s: seq<T>, p: T -> bool)
    requires forall i :: 0 <= i < |s| ==> p(s[i])
    ensures Filter(s, p) == s
  {
    if s != [] {
      FilterAll(s[1..], p);
    }
  }

  /** Filtering twice by the same predicate is filtering once. */
  lemma {:induction false} FilterIdempotent<T>(s: seq<T>, p: T -> bool)
    ensures Filter(Filter(s, p), p) == Filter(s, p)
  {
    var r := Filter(s, p);
    forall i | 0 <= i < |r| ensures p(r[i]) {
      assert r[i] in r;
    }
    FilterAll(r, p);
  }

  /** An element and its complement: the two filters together have as many elements as `s`. */
  lemma {:induction false} FilterComplement<T>(s: seq<T>, p: T -> bool, q: T -> bool)
    requires forall x :: q(x) == !p(x)
    ensures |Filter(s, p)| + |Filter(s, q)| == |s|
  {
    if s != [] {
      FilterComplement(s[1..], p, q);
    }
  }

  // ---------------------------------------------------------------------------
  // String.prototype.split with a one-character separator

  /** `s.split(sep)`: the maximal separator-free pieces of `s`, empty ones included. */
  function Split(s: string, sep: char): (parts: seq<string>)
    ensures |parts| >= 1
    decreases |s|
  {
    if s == [] then [""]
    else
      var rest := Split(s[1..], sep);
      if s[0] == sep then [""] + rest
      else [[s[0]] + rest[0]] + rest[1..]
  }

  /** `parts.join(sep)`. */
  function Join(parts: seq<string>, sep: char): string
  {
    if parts == [] then ""
    else if |parts| == 1 then parts[0]
    else parts[0] + [sep] + Join(parts[1..], sep)
  }

  /** Joining a piece in front of a non-empty list puts a separator between them. */
  lemma JoinCons(p: string, ps: seq<string>, sep: char)
    requires ps != []
    ensures Join([p] + ps, sep) == p + [sep] + Join(ps, sep)
  {
    assert ([p] + ps)[1..] == ps;
  }

  /** Prepending a character to the first piece prepends it to the joined string. */
  lemma JoinPrepend(c: char, ps: seq<string>, sep: char)
    requires ps != []
    ensures Join([[c] + ps[0]] + ps[1..], sep) == [c] + Join(ps, sep)
  {
    if |ps| > 1 {
      JoinCons([c] + ps[0], ps[1..], sep);
      JoinCons(ps[0], ps[1..], sep);
      assert [ps[0]] + ps[1..] == ps;
    }
  }

  /** Splitting and joining a non-empty string gives its first character before the split-and-join of the rest. */
  lemma SplitJoinStep(s: string, sep: char)
    requires s != []
    ensures Join(Split(s, sep), sep) == [s[0]] + Join(Split(s[1..], sep), sep)
  {
    var rest := Split(s[1..], sep);
    if s[0] == sep {
      assert Split(s, sep) == [""] + rest;
      JoinCons("", rest, sep);
    } else {
      assert Split(s, sep) == [[s[0]] + rest[0]] + rest[1..];
      JoinPrepend(s[0], rest, sep);
    }
  }

  /** Splitting and joining again gives back the original string. */
  lemma {:induction false} SplitJoin(s: string, sep: char)
    ensures Join(Split(s, sep), sep) == s
    decreases |s|
  {
    if s != [] {
      SplitJoinStep(s, sep);
      SplitJoin(s[1..], sep);
      HeadThenTail(Join(Split(s, sep), sep), Join(Split(s[1..], sep), sep), s);
    }
  }

  /** A split with a single piece has the whole string as that piece. */
  lemma SplitOnePiece(s: string, sep: char)
    ensures |Split(s, sep)| == 1 ==> Split(s, sep)[0] == s
  {
    SplitJoin(s, sep);
    if |Split(s, sep)| == 1 {
      assert Join(Split(s, sep), sep) == Split(s, sep)[0];
    }
  }

  /**
    With `j` the first and `k` the last separator of `s`, there are at least two
    pieces: the text before `j` and the text after `k`.
   */
  lemma SplitEnds(s: string, sep: char, j: nat, k: nat)
    requires j <= k < |s| && s[j] == sep && s[k] == sep
    requires sep !in s[..j] && sep !in s[k + 1..]
    ensures |Split(s, sep)| >= 2
    ensures Split(s, sep)[0] == s[..j]
    ensures Split(s, sep)[|Split(s, sep)| - 1] == s[k + 1..]
  {
    var parts := Split(s, sep);
    assert |parts| >= 2 by {
      SplitOnePiece(s, sep);
      SplitFirst(s, sep);
      assert s[j] == sep;
    }
    assert parts[0] == s[..j] by {
      SplitFirst(s, sep);
    }
    assert parts[|parts| - 1] == s[k + 1..] by {
      SplitLast(s, sep);
    }
  }

  /** No piece of a split holds the separator. */
  lemma {:induction false} SplitPiecesFree(s: string, sep: char)
    ensures forall i :: 0 <= i < |Split(s, sep)| ==> sep !in Split(s, sep)[i]
    decreases |s|
  {
    if s != [] {
      SplitPiecesFree(s[1..], sep);
      var rest := Split(s[1..], sep);
      if s[0] != sep {
        assert Split(s, sep)[1..] == rest[1..];
      } else {
        assert Split(s, sep)[1..] == rest;
      }
    }
  }

  /** A string without the separator is a single piece. */
  lemma {:induction false} SplitNoSeparator(s: string, sep: char)
    requires sep !in s
    ensures Split(s, sep) == [s]
    decreases |s|
  {
    if s != [] {
      assert sep !in s[1..];
      SplitNoSeparator(s[1..], sep);
      assert [s[0]] + s[1..] == s;
    }
  }

  /** The first piece is the text before the first separator. */
  lemma {:induction false} SplitFirst(s: string, sep: char)
    ensures sep !in Split(s, sep)[0]
    ensures |Split(s, sep)[0]| <= |s|
    ensures Split(s, sep)[0] == s[..|Split(s, sep)[0]|]
    ensures |Split(s, sep)[0]| < |s| ==> s[|Split(s, sep)[0]|] == sep
    decreases |s|
  {
    if s != [] && s[0] != sep {
      SplitFirst(s[1..], sep);
    }
  }

  /** Joining at least two pieces puts a separator before the last one. */
  lemma {:induction false} JoinSnoc(ps: seq<string>, sep: char)
    requires |ps| >= 2
    ensures Join(ps, sep) == Join(ps[..|ps| - 1], sep) + [sep] + ps[|ps| - 1]
    decreases |ps|
  {
    if |ps| > 2 {
      var init := ps[..|ps| - 1];
      JoinSnoc(ps[1..], sep);
      assert ps[1..][..|ps| - 2] == init[1..];
      JoinCons(ps[0], init[1..], sep);
      assert [ps[0]] + init[1..] == init;
      JoinCons(ps[0], ps[1..], sep);
      assert [ps[0]] + ps[1..] == ps;
    }
  }

  /** The last piece is the text after the last separator. */
  lemma SplitLast(s: string, sep: char)
    ensures sep !in Split(s, sep)[|Split(s, sep)| - 1]
    ensures var last := Split(s, sep)[|Split(s, sep)| - 1];
      |last| <= |s| && last == s[|s| - |last|..]
    ensures |Split(s, sep)| >= 2 ==> |Split(s, sep)[|Split(s, sep)| - 1]| < |s|
    ensures var last := Split(s, sep)[|Split(s, sep)| - 1];
      |last| < |s| ==> s[|s| - |last| - 1] == sep
  {
    SplitJoin(s, sep);
    SplitPiecesFree(s, sep);
    LastOfJoin(s, Split(s, sep), sep);
  }

  /** The last of some separator-free pieces whose join is `s` is the text after the last separator of `s`. */
  lemma LastOfJoin(s: string, parts: seq<string>, sep: char)
    requires |parts| >= 1 && Join(parts, sep) == s
    requires forall i :: 0 <= i < |parts| ==> sep !in parts[i]
    ensures var last := parts[|parts| - 1];
      sep !in last && |last| <= |s| && last == s[|s| - |last|..] &&
      (|parts| >= 2 ==> |last| < |s|) &&
      (|last| < |s| ==> s[|s| - |last| - 1] == sep)
  {
    var last := parts[|parts| - 1];
    if |parts| >= 2 {
      JoinSnoc(parts, sep);
      AfterSeparator(s, Join(parts[..|parts| - 1], sep), sep, last);
    }
  }

  /** In `front + [sep] + last`, `last` is the suffix that follows the separator. */
  lemma AfterSeparator(s: string, front: string, sep: char, last: string)
    requires s == front + [sep] + last
    ensures |last| < |s| && last == s[|s| - |last|..] && s[|s| - |last| - 1] == sep
  {
    assert s[|s| - |last|..] == last;
  }

  /** The first piece of a string that starts with a separator-free `head` and then a separator is `head`. */
  lemma {:induction false} SplitAtFirst(head: string, sep: char, tail: string)
    requires sep !in head
    ensures Split(head + [sep] + tail, sep)[0] == head
    decreases |head|
  {
    var s := head + [sep] + tail;
    if head != [] {
      assert s[1..] == head[1..] + [sep] + tail;
      SplitAtFirst(head[1..], sep, tail);
    }
  }
}
