/** Lists of field names kept in first-occurrence order, and which of them lead.
    `AddNames` is the source's `distinct`: appending, never replacing. */
module Leads {
  import opened Engine
  import opened Serving

  function AddNames(acc: seq<string>, names: seq<string>): seq<string>
    decreases |names|
  {
    if names == [] then acc
    else
      var before := AddNames(acc, names[..|names| - 1]);
      var name := names[|names| - 1];
      if name in before then before else before + [name]
  }

  function DistinctNames(names: seq<string>): seq<string> {
    AddNames([], names)
  }

  predicate Within(a: seq<string>, b: seq<string>) {
    forall i :: 0 <= i < |a| ==> a[i] in b
  }

  lemma {:induction false} AddNamesExtends(acc: seq<string>, names: seq<string>)
    ensures acc <= AddNames(acc, names)
    ensures Distinct(acc) ==> Distinct(AddNames(acc, names))
    ensures forall f :: f in AddNames(acc, names) <==> f in acc || f in names
    decreases |names|
  {
    if names != [] {
      var short := names[..|names| - 1];
      AddNamesExtends(acc, short);
      assert names == short + [names[|names| - 1]];
    }
  }

  lemma {:induction false} AddNamesAppend(acc: seq<string>, a: seq<string>, b: seq<string>)
    ensures AddNames(acc, a + b) == AddNames(AddNames(acc, a), b)
    decreases |b|
  {
    if b == [] {
      assert a + b == a;
    } else {
      var short := b[..|b| - 1];
      assert (a + b)[..|a + b| - 1] == a + short;
      AddNamesAppend(acc, a, short);
    }
  }

  lemma {:induction false} AddKnownNames(acc: seq<string>, names: seq<string>)
    requires Within(names, acc)
    ensures AddNames(acc, names) == acc
    decreases |names|
  {
    if names != [] {
      AddKnownNames(acc, names[..|names| - 1]);
    }
  }

  lemma {:induction false} AddFreshNames(acc: seq<string>, names: seq<string>)
    requires Distinct(names) && forall i :: 0 <= i < |names| ==> names[i] !in acc
    ensures AddNames(acc, names) == acc + names
    decreases |names|
  {
    if names == [] {
      assert acc + names == acc;
    } else {
      var short := names[..|names| - 1];
      AddFreshNames(acc, short);
      assert names == short + [names[|names| - 1]];
      assert acc + names == acc + short + [names[|names| - 1]];
    }
  }

  /** `distinct` over a list that starts distinct only appends to that start. */
  lemma {:induction false} DistinctStart(lead: seq<string>, names: seq<string>)
    requires Distinct(lead)
    ensures DistinctNames(lead + names) == AddNames(lead, names)
  {
    AddNamesAppend([], lead, names);
    AddFreshNames([], lead);
    assert [] + lead == lead;
  }

  lemma {:induction false} DistinctBound(a: seq<string>, b: seq<string>)
    requires Distinct(a) && Within(a, b)
    ensures |a| <= |b|
  {
    DistinctCardinality(a);
    CardinalityBound(b);
    assert (set f | f in a) <= (set f | f in b);
    SubsetSmaller(set f | f in a, set f | f in b);
  }

  lemma {:induction false} SubsetSmaller(a: set<string>, b: set<string>)
    requires a <= b
    ensures |a| <= |b|
  {
    assert b == a + (b - a);
  }

  lemma {:induction false} DistinctSameNames(a: seq<string>, b: seq<string>)
    requires Distinct(a) && Distinct(b) && Within(a, b) && Within(b, a)
    ensures |a| == |b|
  {
    DistinctBound(a, b);
    DistinctBound(b, a);
  }

  // --- Leading -----------------------------------------------------------------

  /** The names of `equality`, in some order, come first. */
  predicate Leading(equality: seq<string>, lead: seq<string>) {
    |equality| <= |lead| && SameSet(lead[..|equality|], equality)
  }

  /** The names of `equality` in some order, then `sort` in its own. */
  predicate LeadingThenSort(equality: seq<string>, sort: seq<string>, lead: seq<string>) {
    && |equality| + |sort| <= |lead|
    && SameSet(lead[..|equality|], equality)
    && lead[|equality|..|equality| + |sort|] == sort
  }

  lemma {:induction false} LeadingExtends(equality: seq<string>, lead: seq<string>, longer: seq<string>)
    requires Leading(equality, lead) && lead <= longer
    ensures Leading(equality, longer)
  {
    assert longer[..|equality|] == lead[..|equality|];
  }

  /** Completing a part of a set of names lists exactly that set. */
  lemma {:induction false} Completed(lead: seq<string>, names: seq<string>, equality: seq<string>)
    requires Distinct(lead) && Within(lead, equality)
    requires Distinct(equality) && Within(names, equality) && Within(equality, names)
    ensures |AddNames(lead, names)| == |equality| && SameSet(AddNames(lead, names), equality)
  {
    var out := AddNames(lead, names);
    AddNamesExtends(lead, names);
    forall i | 0 <= i < |out| ensures out[i] in equality {
      assert out[i] in out;
    }
    forall i | 0 <= i < |equality| ensures equality[i] in out {
      assert equality[i] in names;
    }
    DistinctSameNames(out, equality);
  }

  /** What a lead has to look like for `equality` to come first behind it. */
  predicate Compatible(lead: seq<string>, equality: seq<string>) {
    forall i :: 0 <= i < |lead| && i < |equality| ==> lead[i] in equality
  }

  /** The names of a list that are not leading yet, each at its first place. */
  function FreshNames(lead: seq<string>, names: seq<string>): seq<string> {
    if names == [] then []
    else
      var before, name := FreshNames(lead, names[..|names| - 1]), names[|names| - 1];
      if name in lead || name in before then before else before + [name]
  }

  lemma {:induction false} AddNamesIsFresh(lead: seq<string>, names: seq<string>)
    ensures AddNames(lead, names) == lead + FreshNames(lead, names)
    decreases |names|
  {
    if names != [] {
      AddNamesIsFresh(lead, names[..|names| - 1]);
    }
  }

  /** A lead that begins with none but `equality`, and fresh names that complete it before any
      other comes. */
  predicate CompletedBy(lead: seq<string>, added: seq<string>, equality: seq<string>) {
    && Compatible(lead, equality)
    && forall q :: 0 <= q < |added| && |lead| + q < |equality| ==> added[q] in equality
  }

  /** Names among a lead and what is appended to it come first if and only if the lead began
      with none but them and the first fresh names complete them. */
  lemma {:induction false} LeadingExactly(lead: seq<string>, names: seq<string>, equality: seq<string>)
    requires Distinct(lead) && Distinct(equality) && Within(equality, lead + names)
    ensures |equality| <= |AddNames(lead, names)|
    ensures Leading(equality, AddNames(lead, names)) <==> CompletedBy(lead, FreshNames(lead, names), equality)
  {
    var out, added := AddNames(lead, names), FreshNames(lead, names);
    AddNamesExtends(lead, names);
    AddNamesIsFresh(lead, names);
    forall i | 0 <= i < |equality| ensures equality[i] in out {
      assert equality[i] in lead + names;
    }
    DistinctBound(equality, out);
    forall i | 0 <= i < |equality| ensures out[i] == if i < |lead| then lead[i] else added[i - |lead|] {
    }
    if Leading(equality, out) {
      forall i | 0 <= i < |equality| ensures out[i] in equality {
        assert out[..|equality|][i] == out[i];
      }
      forall q | 0 <= q < |added| && |lead| + q < |equality| ensures added[q] in equality {
        assert out[|lead| + q] == added[q];
      }
    }
  }

  /** The same for equality names followed by a sort. */
  predicate CompatibleWithSort(lead: seq<string>, equality: seq<string>, sort: seq<string>) {
    && Compatible(lead, equality)
    && (|lead| > |equality| ==> lead[|equality|..] <= sort)
  }

  lemma {:induction false} SortedLeadingSurvives(lead: seq<string>, inner: seq<string>, equality: seq<string>,
                                                 sort: seq<string>)
    requires Distinct(lead) && Distinct(equality + sort)
    requires Within(lead, equality + sort) && Within(inner, equality)
    ensures LeadingThenSort(equality, sort, AddNames(lead, inner + equality + sort))
      <==> CompatibleWithSort(lead, equality, sort)
  {
    var tail := inner + equality;
    var out := AddNames(lead, tail + sort);
    AddNamesAppend(lead, tail, sort);
    AddNamesExtends(lead, tail + sort);
    assert Distinct(equality) by {
      assert forall i :: 0 <= i < |equality| ==> (equality + sort)[i] == equality[i];
    }
    DistinctBound(lead, equality + sort);
    if CompatibleWithSort(lead, equality, sort) {
      if |lead| <= |equality| {
        ShortLeadThenSort(lead, tail, equality, sort);
      } else {
        LongLeadThenSort(lead, tail, equality, sort);
      }
    }
    if LeadingThenSort(equality, sort, out) {
      SortedLeadingNeeds(lead, out, equality, sort);
    }
  }

  lemma {:induction false} SortedLeadingNeeds(lead: seq<string>, out: seq<string>, equality: seq<string>,
                                              sort: seq<string>)
    requires lead <= out && |lead| <= |equality| + |sort| && LeadingThenSort(equality, sort, out)
    ensures CompatibleWithSort(lead, equality, sort)
  {
    var n := |equality|;
    forall i | 0 <= i < |lead| && i < n ensures lead[i] in equality {
      assert out[..n][i] == lead[i];
    }
    if |lead| > n {
      forall i | 0 <= i < |lead| - n ensures lead[n..][i] == sort[i] {
        assert out[n..n + |sort|][i] == out[n + i] == lead[n + i];
      }
    }
  }

  lemma {:induction false} SplitDistinct(a: seq<string>, b: seq<string>)
    requires Distinct(a + b)
    ensures Distinct(b) && forall i :: 0 <= i < |b| ==> b[i] !in a
  {
    assert forall i :: 0 <= i < |b| ==> (a + b)[|a| + i] == b[i];
    assert forall i :: 0 <= i < |a| ==> (a + b)[i] == a[i];
  }

  lemma {:induction false} ShortLeadThenSort(lead: seq<string>, tail: seq<string>, equality: seq<string>,
                                             sort: seq<string>)
    requires Distinct(lead) && Distinct(equality + sort) && Distinct(equality) && |lead| <= |equality|
    requires Compatible(lead, equality) && Within(tail, equality) && Within(equality, tail)
    ensures LeadingThenSort(equality, sort, AddNames(AddNames(lead, tail), sort))
  {
    var mid := AddNames(lead, tail);
    Completed(lead, tail, equality);
    SplitDistinct(equality, sort);
    assert forall i :: 0 <= i < |mid| ==> mid[i] in equality;
    AddFreshNames(mid, sort);
    HeadThenSort(mid, equality, sort);
  }

  lemma {:induction false} LongLeadThenSort(lead: seq<string>, tail: seq<string>, equality: seq<string>,
                                            sort: seq<string>)
    requires Distinct(lead) && Distinct(equality + sort) && Distinct(equality) && |lead| > |equality|
    requires CompatibleWithSort(lead, equality, sort) && Within(tail, equality)
    ensures LeadingThenSort(equality, sort, AddNames(AddNames(lead, tail), sort))
  {
    var n := |equality|;
    var head, got, rest := lead[..n], lead[n..], sort[|lead| - n..];
    assert lead == head + got && sort == got + rest;
    HeadNames(lead, equality);
    LeadPlusRest(head, got, rest, tail, equality);
    HeadThenSort(head, equality, sort);
  }

  lemma {:induction false} HeadNames(lead: seq<string>, equality: seq<string>)
    requires Distinct(lead) && Compatible(lead, equality) && |equality| <= |lead|
    ensures SameSet(lead[..|equality|], equality)
    ensures Within(lead[..|equality|], equality) && Within(equality, lead[..|equality|])
  {
    SameSetBothWays(lead[..|equality|], equality);
  }

  lemma {:induction false} HeadThenSort(head: seq<string>, equality: seq<string>, sort: seq<string>)
    requires SameSet(head, equality)
    ensures LeadingThenSort(equality, sort, head + sort)
  {
    assert (head + sort)[..|equality|] == head;
    assert (head + sort)[|equality|..|equality| + |sort|] == sort;
  }

  lemma {:induction false} LeadPlusRest(head: seq<string>, got: seq<string>, rest: seq<string>, tail: seq<string>,
                                        equality: seq<string>)
    requires Distinct(equality + (got + rest)) && Within(head, equality)
    requires Within(tail, equality) && Within(equality, head)
    ensures AddNames(AddNames(head + got, tail), got + rest) == head + (got + rest)
  {
    var lead := head + got;
    forall i | 0 <= i < |tail| ensures tail[i] in lead {
      var k :| 0 <= k < |equality| && equality[k] == tail[i];
      assert equality[k] in head;
    }
    AddKnownNames(lead, tail);
    AddNamesAppend(lead, got, rest);
    AddKnownNames(lead, got);
    RestFresh(head, got, rest, equality);
    AddFreshNames(lead, rest);
    assert lead + rest == head + (got + rest);
  }

  lemma {:induction false} RestFresh(head: seq<string>, got: seq<string>, rest: seq<string>, equality: seq<string>)
    requires Distinct(equality + (got + rest)) && Within(head, equality)
    ensures Distinct(rest) && forall i :: 0 <= i < |rest| ==> rest[i] !in head + got
  {
    var all, n, m := equality + (got + rest), |equality|, |got|;
    assert forall i :: 0 <= i < n ==> all[i] == equality[i];
    assert forall i :: 0 <= i < m ==> all[n + i] == got[i];
    assert forall i :: 0 <= i < |rest| ==> all[n + m + i] == rest[i];
    forall i | 0 <= i < |rest| ensures rest[i] !in head + got {
      forall k | 0 <= k < |head + got| ensures (head + got)[k] != rest[i] {
        if k < |head| {
          assert head[k] in equality;
        }
      }
    }
  }
}
