/**
 * `Iterator::filter`, `filter_map` and `take` over sequences, and the shape of
 * a loop that pushes kept items and leaves early on an error, with the facts
 * that pin them down.
 */
module Seqs {
  import opened Wrappers

  /** The elements of `s` that satisfy `p`, in order. */
  function Filter<T>(s: seq<T>, p: T -> bool): (r: seq<T>)
    ensures |r| <= |s|
    ensures forall x :: x in r ==> x in s && p(x)
    ensures forall i :: 0 <= i < |r| ==> r[i] in s && p(r[i])
  {
    if s == [] then [] else Filter(s[..|s| - 1], p) + (if p(s[|s| - 1]) then [s[|s| - 1]] else [])
  }

  /** The first `n` elements, or all of them when there are fewer. */
  function Take<T>(s: seq<T>, n: nat): (r: seq<T>)
    ensures |r| == if |s| < n then |s| else n
    ensures r == s[..|r|]
  {
    if |s| <= n then s else s[..n]
  }

  /** Filtering a prefix gives a prefix of the filtered sequence. */
  lemma {:induction false} FilterPrefix<T>(s: seq<T>, p: T -> bool, j: nat)
    requires j <= |s|
    ensures |Filter(s[..j], p)| <= |Filter(s, p)|
    ensures Filter(s[..j], p) == Filter(s, p)[..|Filter(s[..j], p)|]
    decreases |s| - j
  {
    if j < |s| {
      FilterPrefix(s, p, j + 1);
      var t := s[..j + 1];
      assert t[..|t| - 1] == s[..j];
      var a, b, c := Filter(s[..j], p), Filter(t, p), Filter(s, p);
      assert b == a + (if p(s[j]) then [s[j]] else []);
      assert b == c[..|b|];
      assert a == b[..|a|];
    } else {
      assert s[..j] == s;
    }
  }

  /** A satisfying element lands at the position given by the number of satisfying elements before it. */
  lemma FilterPlace<T>(s: seq<T>, p: T -> bool, i: nat)
    requires i < |s| && p(s[i])
    ensures |Filter(s[..i], p)| < |Filter(s, p)|
    ensures Filter(s, p)[|Filter(s[..i], p)|] == s[i]
  {
    var t := s[..i + 1];
    assert t[..|t| - 1] == s[..i];
    assert Filter(t, p) == Filter(s[..i], p) + [s[i]];
    FilterPrefix(s, p, i + 1);
  }

  /** Every element of the filtered sequence comes from a satisfying element `s[i]` of `s`, placed as FilterPlace says. */
  lemma {:induction false} FilterOrigin<T>(s: seq<T>, p: T -> bool, k: nat) returns (i: nat)
    requires k < |Filter(s, p)|
    ensures i < |s| && p(s[i]) && |Filter(s[..i], p)| == k && Filter(s, p)[k] == s[i]
  {
    var n := |s| - 1;
    var prefix := s[..n];
    assert Filter(s, p) == Filter(prefix, p) + (if p(s[n]) then [s[n]] else []);
    if k < |Filter(prefix, p)| {
      i := FilterOrigin(prefix, p, k);
      assert prefix[..i] == s[..i];
    } else {
      i := n;
      assert s[..i] == prefix;
    }
  }

  /** The largest defined value of `f` over `s`, if `f` is defined anywhere (`filter_map(f).max()`). */
  function MaxDefined<T>(s: seq<T>, f: T -> Option<int>): Option<int>
  {
    if s == [] then None
    else
      var rest := MaxDefined(s[..|s| - 1], f);
      var last := f(s[|s| - 1]);
      match (rest, last)
      case (None, _) => last
      case (Some(a), None) => rest
      case (Some(a), Some(b)) => if b > a then last else rest
  }

  /** MaxDefined is undefined exactly when `f` is undefined everywhere, and is otherwise a value of `f` no smaller than any other. */
  lemma {:induction false} MaxDefinedSpec<T>(s: seq<T>, f: T -> Option<int>)
    ensures MaxDefined(s, f).None? <==> forall i :: 0 <= i < |s| ==> f(s[i]).None?
    ensures MaxDefined(s, f).Some? ==> exists i :: 0 <= i < |s| && f(s[i]) == MaxDefined(s, f)
    ensures MaxDefined(s, f).Some? ==> forall i :: 0 <= i < |s| && f(s[i]).Some? ==> f(s[i]).value <= MaxDefined(s, f).value
  {
    if s != [] {
      var n := |s| - 1;
      var prefix := s[..n];
      MaxDefinedSpec(prefix, f);
      assert forall i :: 0 <= i < n ==> prefix[i] == s[i];
    }
  }

  /** `Iterator::filter_map`: the present results of `f`, in order. */
  function FilterMap<T, U>(s: seq<T>, f: T -> Option<U>): seq<U>
  {
    if s == [] then [] else FilterMap(s[..|s| - 1], f) + (match f(s[|s| - 1]) case Some(y) => [y] case None => [])
  }

  /** An item is in the output exactly when `f` produces it for some input. */
  lemma {:induction false} FilterMapSpec<T, U>(s: seq<T>, f: T -> Option<U>)
    ensures forall y :: y in FilterMap(s, f) <==> exists i :: 0 <= i < |s| && f(s[i]) == Some(y)
  {
    if s != [] {
      var n := |s| - 1;
      FilterMapSpec(s[..n], f);
      assert forall i :: 0 <= i < n ==> s[..n][i] == s[i];
    }
  }

  /** An item in the output comes from some input. */
  lemma FilterMapOrigin<T, U>(s: seq<T>, f: T -> Option<U>, y: U)
    requires y in FilterMap(s, f)
    ensures exists i :: 0 <= i < |s| && f(s[i]) == Some(y)
  {
    FilterMapSpec(s, f);
  }

  /** Every present result is in the output. */
  lemma {:induction false} FilterMapHas<T, U>(s: seq<T>, f: T -> Option<U>, i: nat)
    requires i < |s| && f(s[i]).Some?
    ensures f(s[i]).value in FilterMap(s, f)
  {
    var n := |s| - 1;
    if i < n {
      assert s[..n][i] == s[i];
      FilterMapHas(s[..n], f, i);
    }
  }

  /** What a loop body does with one record: keeps an item, skips the record (`continue`), or fails the loop (`?`). */
  datatype Verdict<+W> = Keep(item: W) | Skip | Fail(message: string)

  /**
   * A loop over records that pushes the kept items: the items in record order,
   * or the message of the first record that fails.
   */
  function Collect<R, W>(records: seq<R>, classify: R -> Verdict<W>): Result<seq<W>, string>
  {
    if records == [] then Ok([])
    else
      match Collect(records[..|records| - 1], classify)
      case Err(e) => Err(e)
      case Ok(data) =>
        match classify(records[|records| - 1])
        case Fail(e) => Err(e)
        case Skip => Ok(data)
        case Keep(w) => Ok(data + [w])
  }

  /** One more record: what collecting the prefix gives, extended by that record's verdict. */
  lemma CollectStep<R, W>(records: seq<R>, classify: R -> Verdict<W>, i: nat, data: seq<W>)
    requires i < |records| && Collect(records[..i], classify) == Ok(data)
    ensures classify(records[i]).Fail? ==> Collect(records[..i + 1], classify) == Err(classify(records[i]).message)
    ensures classify(records[i]).Skip? ==> Collect(records[..i + 1], classify) == Ok(data)
    ensures classify(records[i]).Keep? ==> Collect(records[..i + 1], classify) == Ok(data + [classify(records[i]).item])
  {
    assert records[..i + 1][..i] == records[..i];
  }

  /** A failure in a prefix of the records is the failure of the whole list. */
  lemma {:induction false} CollectFailurePersists<R, W>(records: seq<R>, classify: R -> Verdict<W>, j: nat)
    requires j <= |records|
    requires Collect(records[..j], classify).Err?
    ensures Collect(records, classify) == Collect(records[..j], classify)
    decreases |records| - j
  {
    if j < |records| {
      assert records[..j + 1][..j] == records[..j];
      CollectFailurePersists(records, classify, j + 1);
    } else {
      assert records[..j] == records;
    }
  }

  /** Collecting succeeds exactly when no record fails; otherwise it fails with the first failing record's message. */
  lemma {:induction false} CollectOutcome<R, W>(records: seq<R>, classify: R -> Verdict<W>)
    ensures Collect(records, classify).Ok? <==> forall i :: 0 <= i < |records| ==> !classify(records[i]).Fail?
    ensures Collect(records, classify).Err? ==>
      exists i :: 0 <= i < |records|
        && classify(records[i]) == Fail(Collect(records, classify).error)
        && forall j :: 0 <= j < i ==> !classify(records[j]).Fail?
  {
    if records != [] {
      var n := |records| - 1;
      var prefix := records[..n];
      CollectOutcome(prefix, classify);
      assert forall i :: 0 <= i < n ==> prefix[i] == records[i];
      if Collect(prefix, classify).Err? {
        var i :| 0 <= i < n && classify(prefix[i]) == Fail(Collect(prefix, classify).error)
          && forall j :: 0 <= j < i ==> !classify(prefix[j]).Fail?;
        assert classify(records[i]) == Fail(Collect(records, classify).error);
      }
    }
  }

  /** The output holds exactly the kept items: each comes from a record kept as it, and each kept record's item is in it. */
  lemma {:induction false} CollectKept<R, W>(records: seq<R>, classify: R -> Verdict<W>)
    requires Collect(records, classify).Ok?
    ensures forall k :: 0 <= k < |Collect(records, classify).value| ==>
      exists i :: 0 <= i < |records| && classify(records[i]) == Keep(Collect(records, classify).value[k])
    ensures forall i :: 0 <= i < |records| && classify(records[i]).Keep? ==>
      classify(records[i]).item in Collect(records, classify).value
  {
    if records != [] {
      var n := |records| - 1;
      var prefix := records[..n];
      CollectKept(prefix, classify);
      assert forall i :: 0 <= i < n ==> prefix[i] == records[i];
    }
  }
  /** When no record is skipped, a successful collection keeps one item per record, in record order. */
  lemma {:induction false} CollectEvery<R, W>(records: seq<R>, classify: R -> Verdict<W>)
    requires Collect(records, classify).Ok?
    requires forall i :: 0 <= i < |records| ==> !classify(records[i]).Skip?
    ensures |Collect(records, classify).value| == |records|
    ensures forall i :: 0 <= i < |records| ==> classify(records[i]) == Keep(Collect(records, classify).value[i])
  {
    if records != [] {
      var n := |records| - 1;
      var prefix := records[..n];
      assert forall i :: 0 <= i < n ==> prefix[i] == records[i];
      CollectEvery(prefix, classify);
    }
  }
  /**
   * A loop over records that appends several items per record: all the
   * items in record order, or the error of the first record that fails.
   */
  function CollectMany<R, W>(records: seq<R>, expand: R -> Result<seq<W>, string>): Result<seq<W>, string>
  {
    if records == [] then Ok([])
    else
      match CollectMany(records[..|records| - 1], expand)
      case Err(e) => Err(e)
      case Ok(data) =>
        match expand(records[|records| - 1])
        case Err(e) => Err(e)
        case Ok(more) => Ok(data + more)
  }

  /** One more record: what the prefix gives, extended by that record's items or replaced by its error. */
  lemma CollectManyStep<R, W>(records: seq<R>, expand: R -> Result<seq<W>, string>, i: nat, data: seq<W>)
    requires i < |records| && CollectMany(records[..i], expand) == Ok(data)
    ensures expand(records[i]).Err? ==> CollectMany(records[..i + 1], expand) == Err(expand(records[i]).error)
    ensures expand(records[i]).Ok? ==> CollectMany(records[..i + 1], expand) == Ok(data + expand(records[i]).value)
  {
    assert records[..i + 1][..i] == records[..i];
  }

  /** An error in a prefix of the records is the error of the whole loop. */
  lemma {:induction false} CollectManyFailurePersists<R, W>(records: seq<R>, expand: R -> Result<seq<W>, string>, j: nat)
    requires j <= |records|
    requires CollectMany(records[..j], expand).Err?
    ensures CollectMany(records, expand) == CollectMany(records[..j], expand)
    decreases |records| - j
  {
    if j < |records| {
      assert records[..j + 1][..j] == records[..j];
      CollectManyFailurePersists(records, expand, j + 1);
    } else {
      assert records[..j] == records;
    }
  }

  /** The loop succeeds exactly when every record does; otherwise it fails with the first failing record's error. */
  lemma {:induction false} CollectManyOutcome<R, W>(records: seq<R>, expand: R -> Result<seq<W>, string>)
    ensures CollectMany(records, expand).Ok? <==> forall i :: 0 <= i < |records| ==> expand(records[i]).Ok?
    ensures CollectMany(records, expand).Err? ==>
      exists i :: 0 <= i < |records|
        && expand(records[i]) == Err(CollectMany(records, expand).error)
        && forall j :: 0 <= j < i ==> expand(records[j]).Ok?
  {
    if records != [] {
      var n := |records| - 1;
      var prefix := records[..n];
      CollectManyOutcome(prefix, expand);
      assert forall i :: 0 <= i < n ==> prefix[i] == records[i];
      if CollectMany(prefix, expand).Err? {
        var i :| 0 <= i < n && expand(prefix[i]) == Err(CollectMany(prefix, expand).error)
          && forall j :: 0 <= j < i ==> expand(prefix[j]).Ok?;
        assert expand(records[i]) == Err(CollectMany(records, expand).error);
      }
    }
  }

  lemma BlockBound(m: nat, i: nat, j: nat, n: nat)
    requires i < n && j < m
    ensures m * i + j < m * n
  {
    assert m * i + j < m * (i + 1);
    assert m * (i + 1) <= m * n;
  }

  /**
   * When every record gives `m` items, a successful loop gives `m` items per
   * record, record `i`'s items standing at positions `m * i` to `m * i + m - 1`.
   */
  lemma {:induction false} CollectManyUniform<R, W>(records: seq<R>, expand: R -> Result<seq<W>, string>, m: nat)
    requires CollectMany(records, expand).Ok?
    requires forall i :: 0 <= i < |records| && expand(records[i]).Ok? ==> |expand(records[i]).value| == m
    ensures |CollectMany(records, expand).value| == m * |records|
    ensures forall i, j :: 0 <= i < |records| && 0 <= j < m ==>
      expand(records[i]).Ok? && m * i + j < m * |records| && CollectMany(records, expand).value[m * i + j] == expand(records[i]).value[j]
  {
    if records != [] {
      var n := |records| - 1;
      var prefix := records[..n];
      assert forall i :: 0 <= i < n ==> prefix[i] == records[i];
      CollectManyUniform(prefix, expand, m);
      CollectManyOutcome(records, expand);
      var data := CollectMany(prefix, expand).value;
      var more := expand(records[n]).value;
      var all := CollectMany(records, expand).value;
      assert all == data + more;
      forall i, j | 0 <= i < |records| && 0 <= j < m
        ensures expand(records[i]).Ok? && m * i + j < m * |records| && all[m * i + j] == expand(records[i]).value[j]
      {
        UniformPlace(data, more, m, n, i, j);
        if i < n {
          assert prefix[i] == records[i];
        }
      }
    }
  }

  /** Where item `j` of record `i` sits after appending the last record's `m` items. */
  lemma UniformPlace<W>(data: seq<W>, more: seq<W>, m: nat, n: nat, i: nat, j: nat)
    requires |data| == m * n && |more| == m && i <= n && j < m
    ensures m * i + j < m * (n + 1)
    ensures i < n ==> m * i + j < |data| && (data + more)[m * i + j] == data[m * i + j]
    ensures i == n ==> (data + more)[m * i + j] == more[j]
  {
    BlockBound(m, i, j, n + 1);
    if i < n {
      BlockBound(m, i, j, n);
    } else {
      assert m * i == |data|;
    }
  }
  /** Every item of a successful loop is one of the items some record gives. */
  lemma {:induction false} CollectManyOrigin<R, W>(records: seq<R>, expand: R -> Result<seq<W>, string>)
    requires CollectMany(records, expand).Ok?
    ensures forall x :: x in CollectMany(records, expand).value ==>
      exists i :: 0 <= i < |records| && expand(records[i]).Ok? && x in expand(records[i]).value
  {
    if records != [] {
      var n := |records| - 1;
      var prefix := records[..n];
      CollectManyOrigin(prefix, expand);
      assert forall i :: 0 <= i < n ==> prefix[i] == records[i];
    }
  }
  /** Every item a record gives is in the output of a successful loop. */
  lemma {:induction false} CollectManyKeeps<R, W>(records: seq<R>, expand: R -> Result<seq<W>, string>, i: nat)
    requires CollectMany(records, expand).Ok? && i < |records|
    ensures expand(records[i]).Ok?
    ensures forall x :: x in expand(records[i]).value ==> x in CollectMany(records, expand).value
  {
    var n := |records| - 1;
    var prefix := records[..n];
    if i < n {
      assert prefix[i] == records[i];
      CollectManyKeeps(prefix, expand, i);
    }
  }
}
