/** Merging the results of several instances of one validating agent
    (`ParallelValidator` in agents/sdlc/parallel_validator.py). The concurrent
    gather is reduced to the sequence of outcomes in submission order, each the
    findings an instance returned or the exception it raised. */
module ParallelValidator {
  import opened Wrappers
  import opened Text
  import opened Findings

  /** What `asyncio.gather(..., return_exceptions=True)` yields per instance. */
  datatype Outcome = Returned(findings: seq<Finding>) | Threw(message: string)

  datatype MergedResult = MergedResult(
    findings: seq<Finding>,
    agentCount: nat,
    fixRequired: bool,
    success: bool,
    error: Option<string>)

  /** `_create_agents`: `count` fresh instances (none for a count below one). */
  function CreateAgents<A>(count: int, instance: A): (r: seq<A>)
    ensures |r| == if count < 0 then 0 else count
    ensures forall i :: 0 <= i < |r| ==> r[i] == instance
  {
    if count <= 0 then [] else [instance] + CreateAgents(count - 1, instance)
  }

  /** The dedup key: one concatenated string, so different (location, problem)
      pairs can share it. */
  function Key(f: Finding): string {
    f.location + ":" + Take(f.problem, 50)
  }

  function KeySet(fs: seq<Finding>): set<string> {
    set f | f in fs :: Key(f)
  }

  predicate DistinctKeys(fs: seq<Finding>) {
    forall i, j :: 0 <= i < j < |fs| ==> Key(fs[i]) != Key(fs[j])
  }

  /** The findings of the instances that returned, in submission order. */
  function Gathered(results: seq<Outcome>): seq<Finding>
    decreases |results|
  {
    if |results| == 0 then []
    else
      (match results[0]
       case Returned(fs) => fs
       case Threw(_) => [])
      + Gathered(results[1..])
  }

  /** The number of instances that returned. */
  function Successful(results: seq<Outcome>): (n: nat)
    ensures n <= |results|
    decreases |results|
  {
    if |results| == 0 then 0
    else (if results[0].Returned? then 1 else 0) + Successful(results[1..])
  }

  // ----- _merge_results -----

  /** The first finding with a given key. */
  function FirstOf(fs: seq<Finding>, k: string): (r: Finding)
    requires k in KeySet(fs)
    ensures r in fs && Key(r) == k
    decreases |fs|
  {
    if Key(fs[0]) == k then fs[0]
    else
      assert forall f :: f in fs && f != fs[0] ==> f in fs[1..];
      FirstOf(fs[1..], k)
  }

  /** The loop over findings with the shared `seen` set: a finding is kept
      when its key has not been seen. */
  function Dedup(fs: seq<Finding>, seen: set<string>): seq<Finding>
    decreases |fs|
  {
    if |fs| == 0 then []
    else if Key(fs[0]) in seen then Dedup(fs[1..], seen)
    else [fs[0]] + Dedup(fs[1..], seen + {Key(fs[0])})
  }

  /** The dedup loop keeps findings with distinct keys. */
  lemma {:induction false} DedupDistinct(fs: seq<Finding>, seen: set<string>)
    ensures DistinctKeys(Dedup(fs, seen))
    ensures forall x :: x in Dedup(fs, seen) ==> Key(x) !in seen && x in fs
    decreases |fs|
  {
    if |fs| > 0 {
      var rest := fs[1..];
      if Key(fs[0]) in seen {
        DedupDistinct(rest, seen);
      } else {
        var seen' := seen + {Key(fs[0])};
        DedupDistinct(rest, seen');
        var tail := Dedup(rest, seen');
        var r := Dedup(fs, seen);
        assert r == [fs[0]] + tail;
        forall i, j | 0 <= i < j < |r|
          ensures Key(r[i]) != Key(r[j])
        {
          assert r[j] == tail[j - 1];
          if i > 0 {
            assert r[i] == tail[i - 1];
          } else {
            assert tail[j - 1] in tail;
          }
        }
      }
    }
  }

  /** Each kept finding is the first one with its key. */
  lemma {:induction false} DedupFirst(fs: seq<Finding>, seen: set<string>)
    ensures forall x :: x in Dedup(fs, seen) ==>
      Key(x) in KeySet(fs) && FirstOf(fs, Key(x)) == x
    decreases |fs|
  {
    if |fs| > 0 {
      var rest := fs[1..];
      DedupDistinct(fs, seen);
      if Key(fs[0]) in seen {
        DedupFirst(rest, seen);
        DedupDistinct(rest, seen);
        forall x | x in Dedup(fs, seen)
          ensures Key(x) in KeySet(fs) && FirstOf(fs, Key(x)) == x
        {
          assert x in fs;
          assert Key(x) != Key(fs[0]);
        }
      } else {
        var seen' := seen + {Key(fs[0])};
        DedupFirst(rest, seen');
        DedupDistinct(rest, seen');
        forall x | x in Dedup(fs, seen)
          ensures Key(x) in KeySet(fs) && FirstOf(fs, Key(x)) == x
        {
          assert x in fs;
          if x != fs[0] {
            assert x in Dedup(rest, seen');
            assert Key(x) != Key(fs[0]);
          }
        }
      }
    }
  }

  /** Every key of the input ends up seen before or kept. */
  lemma {:induction false} DedupCovers(fs: seq<Finding>, seen: set<string>)
    ensures forall f :: f in fs ==> Key(f) in seen || Key(f) in KeySet(Dedup(fs, seen))
    decreases |fs|
  {
    if |fs| > 0 {
      var rest := fs[1..];
      assert forall f :: f in fs && f != fs[0] ==> f in rest;
      if Key(fs[0]) in seen {
        DedupCovers(rest, seen);
      } else {
        var seen' := seen + {Key(fs[0])};
        DedupCovers(rest, seen');
        var r := Dedup(fs, seen);
        assert r == [fs[0]] + Dedup(rest, seen');
        forall f | f in fs
          ensures Key(f) in seen || Key(f) in KeySet(r)
        {
          if Key(f) == Key(fs[0]) {
            assert fs[0] in r;
          } else if Key(f) !in seen {
            var y :| y in Dedup(rest, seen') && Key(y) == Key(f);
            assert y in r;
          }
        }
      }
    }
  }

  /** The exception messages, tagged with the instance's position. */
  function ErrorsFrom(results: seq<Outcome>, first: nat): (r: seq<string>)
    ensures |r| == |results| - Successful(results)
    decreases |results|
  {
    if |results| == 0 then []
    else
      (match results[0]
       case Threw(m) => ["Agent " + NatToString(first) + ": " + m]
       case Returned(_) => [])
      + ErrorsFrom(results[1..], first + 1)
  }

  /** `_merge_results` */
  function Merge(results: seq<Outcome>): (r: MergedResult)
    ensures r.agentCount == Successful(results)
    ensures r.success <==> r.agentCount > 0
    ensures r.fixRequired <==> |r.findings| > 0
    ensures r.error.None? <==> Successful(results) == |results|
    ensures r.error.Some? ==> r.error.value == Join(ErrorsFrom(results, 0), "; ")
    ensures DistinctKeys(r.findings)
    ensures forall x :: x in r.findings ==>
      x in Gathered(results) && Key(x) in KeySet(Gathered(results))
      && FirstOf(Gathered(results), Key(x)) == x
    ensures KeySet(r.findings) == KeySet(Gathered(results))
  {
    var all := Gathered(results);
    var kept := Dedup(all, {});
    DedupDistinct(all, {});
    DedupFirst(all, {});
    DedupCovers(all, {});
    var errors := ErrorsFrom(results, 0);
    MergedResult(kept, Successful(results), |kept| > 0, Successful(results) > 0,
                 if |errors| == 0 then None else Some(Join(errors, "; ")))
  }

  /** Every exception contributes its tagged message. */
  lemma {:induction false} ErrorsListed(results: seq<Outcome>, first: nat, i: nat)
    requires i < |results| && results[i].Threw?
    ensures "Agent " + NatToString(first + i) + ": " + results[i].message in ErrorsFrom(results, first)
    decreases i
  {
    if i > 0 {
      ErrorsListed(results[1..], first + 1, i - 1);
    }
  }

  /** Exceptions contribute no findings. */
  lemma {:induction false} ExceptionsAddNothing(results: seq<Outcome>, m: string)
    ensures Gathered(results + [Threw(m)]) == Gathered(results)
    decreases |results|
  {
    if |results| == 0 {
      assert Gathered([Threw(m)]) == [] + Gathered([]);
    } else {
      assert (results + [Threw(m)])[1..] == results[1..] + [Threw(m)];
      ExceptionsAddNothing(results[1..], m);
    }
  }

  /** A lone result whose keys are already distinct comes back unchanged. */
  lemma {:induction false} DistinctUnchanged(fs: seq<Finding>, seen: set<string>)
    requires DistinctKeys(fs)
    requires forall f :: f in fs ==> Key(f) !in seen
    ensures Dedup(fs, seen) == fs
    decreases |fs|
  {
    if |fs| > 0 {
      var rest := fs[1..];
      forall f | f in rest ensures Key(f) !in seen + {Key(fs[0])} {
        var j :| 0 <= j < |rest| && rest[j] == f;
        assert fs[j + 1] == f;
      }
      assert DistinctKeys(rest) by {
        forall i, j | 0 <= i < j < |rest| ensures Key(rest[i]) != Key(rest[j]) {
          assert rest[i] == fs[i + 1] && rest[j] == fs[j + 1];
        }
      }
      DistinctUnchanged(rest, seen + {Key(fs[0])});
    }
  }

  lemma SingleResultUnchanged(fs: seq<Finding>)
    requires DistinctKeys(fs)
    ensures Merge([Returned(fs)]).findings == fs
  {
    assert Gathered([Returned(fs)]) == fs + Gathered([]);
    assert fs + [] == fs;
    DistinctUnchanged(fs, {});
  }

  /** ("a:1", "x") and ("a", "1:x") share the key "a:1:x", so the second is
      dropped as a duplicate of the first. */
  lemma ConcatenatedKeysCollide(f: Finding, g: Finding)
    requires f.location == "a:1" && f.problem == "x"
    requires g.location == "a" && g.problem == "1:x"
    ensures Merge([Returned([f, g])]).findings == [f]
  {
    assert Key(f) == "a:1:x" && Key(g) == "a:1:x";
    assert Gathered([Returned([f, g])]) == [f, g] + Gathered([]);
    assert [f, g] + [] == [f, g];
    assert [f, g][1..] == [g] && [g][1..] == [];
    var seen: set<string> := {};
    assert Dedup([f, g], seen) == [f] + Dedup([g], seen + {Key(f)});
    assert Key(g) in seen + {Key(f)};
    assert Dedup([g], seen + {Key(f)}) == Dedup([], seen + {Key(f)});
  }

  // ----- validate_with_consensus -----

  /** The dict of `key -> (finding, count)`, with its insertion order. */
  datatype Tally = Tally(order: seq<string>, table: map<string, (Finding, nat)>)

  /** One loop step: the latest finding replaces the stored one and the count
      grows; a new key goes to the end of the insertion order. */
  function Count(t: Tally, f: Finding): Tally {
    var k := Key(f);
    if k in t.table then Tally(t.order, t.table[k := (f, t.table[k].1 + 1)])
    else Tally(t.order + [k], t.table[k := (f, 1)])
  }

  /** The tally after the loop over `fs`, in order. */
  function TallyOf(fs: seq<Finding>): Tally
    decreases |fs|
  {
    if |fs| == 0 then Tally([], map[])
    else Count(TallyOf(fs[..|fs| - 1]), fs[|fs| - 1])
  }

  /** The number of findings with a given key. */
  function Occurrences(fs: seq<Finding>, k: string): nat
    decreases |fs|
  {
    if |fs| == 0 then 0
    else Occurrences(fs[..|fs| - 1], k) + (if Key(fs[|fs| - 1]) == k then 1 else 0)
  }

  /** The last finding with a given key. */
  function LastOf(fs: seq<Finding>, k: string): (r: Finding)
    requires k in KeySet(fs)
    ensures r in fs && Key(r) == k
    decreases |fs|
  {
    var last := fs[|fs| - 1];
    if Key(last) == k then last
    else
      assert forall f :: f in fs && f != last ==> f in fs[..|fs| - 1];
      LastOf(fs[..|fs| - 1], k)
  }

  /** A key that does not occur has no occurrences. */
  lemma {:induction false} Unoccurring(fs: seq<Finding>, k: string)
    requires k !in KeySet(fs)
    ensures Occurrences(fs, k) == 0
    decreases |fs|
  {
    if |fs| > 0 {
      assert fs[|fs| - 1] in fs;
      assert forall f :: f in fs[..|fs| - 1] ==> f in fs;
      Unoccurring(fs[..|fs| - 1], k);
    }
  }

  /** The tally's keys are the keys of the findings, each once in the order. */
  lemma {:induction false} TallyKeys(fs: seq<Finding>)
    ensures forall k :: k in TallyOf(fs).table <==> k in KeySet(fs)
    ensures forall k :: k in TallyOf(fs).order <==> k in TallyOf(fs).table
    ensures forall i, j :: 0 <= i < j < |TallyOf(fs).order| ==> TallyOf(fs).order[i] != TallyOf(fs).order[j]
    decreases |fs|
  {
    if |fs| > 0 {
      var init := fs[..|fs| - 1];
      var last := fs[|fs| - 1];
      TallyKeys(init);
      assert forall f :: f in fs <==> f in init || f == last;
      forall k ensures k in TallyOf(fs).table <==> k in KeySet(fs) {
        if k in KeySet(fs) {
          var f :| f in fs && Key(f) == k;
          if f != last { assert k in KeySet(init); }
        }
      }
    }
  }

  /** Each stored entry holds the key's count and its latest finding. */
  lemma TallyValues(fs: seq<Finding>)
    ensures forall k :: k in TallyOf(fs).table ==>
      k in KeySet(fs) && TallyOf(fs).table[k].1 == Occurrences(fs, k)
      && TallyOf(fs).table[k].0 == LastOf(fs, k)
    decreases |fs|
  {
    TallyKeys(fs);
    forall k | k in TallyOf(fs).table
      ensures TallyOf(fs).table[k].1 == Occurrences(fs, k)
      ensures TallyOf(fs).table[k].0 == LastOf(fs, k)
    {
      TallyValueAt(fs, k);
    }
  }

  /** The entry of one key: its count and its latest finding. */
  lemma {:induction false} TallyValueAt(fs: seq<Finding>, k: string)
    requires k in KeySet(fs)
    ensures k in TallyOf(fs).table
    ensures TallyOf(fs).table[k].1 == Occurrences(fs, k) && TallyOf(fs).table[k].0 == LastOf(fs, k)
    decreases |fs|
  {
    var init, last := fs[..|fs| - 1], fs[|fs| - 1];
    var t := TallyOf(init);
    assert TallyOf(fs) == Count(t, last);
    if k != Key(last) {
      assert k in KeySet(init) by {
        var f :| f in fs && Key(f) == k;
        assert f != last;
      }
      TallyValueAt(init, k);
    } else if k in KeySet(init) {
      TallyValueAt(init, k);
    } else {
      TallyKeys(init);
      Unoccurring(init, k);
    }
  }

  /** The stored findings whose count reaches `minAgreement`, in insertion order. */
  function Agreed(order: seq<string>, table: map<string, (Finding, nat)>, minAgreement: int): seq<Finding>
    requires forall k :: k in order ==> k in table
    decreases |order|
  {
    if |order| == 0 then []
    else
      (if table[order[0]].1 >= minAgreement then [table[order[0]].0] else [])
      + Agreed(order[1..], table, minAgreement)
  }

  /** The agreed findings are exactly the stored ones that reach the threshold. */
  lemma {:induction false} AgreedFacts(order: seq<string>, table: map<string, (Finding, nat)>, minAgreement: int)
    requires forall k :: k in order ==> k in table
    ensures forall x :: x in Agreed(order, table, minAgreement) <==>
      exists k :: k in order && table[k].1 >= minAgreement && table[k].0 == x
    decreases |order|
  {
    if |order| > 0 {
      AgreedFacts(order[1..], table, minAgreement);
      assert forall k :: k in order <==> k == order[0] || k in order[1..];
    }
  }

  /** `validate_with_consensus` after the gather. */
  function Consensus(results: seq<Outcome>, minAgreement: int): (r: MergedResult)
    ensures r.agentCount == Successful(results)
    ensures r.success <==> r.agentCount > 0
    ensures r.fixRequired <==> |r.findings| > 0
    ensures r.error == None
  {
    var t := TallyOf(Gathered(results));
    TallyKeys(Gathered(results));
    var kept := Agreed(t.order, t.table, minAgreement);
    MergedResult(kept, Successful(results), |kept| > 0, Successful(results) > 0, None)
  }

  /** A key survives consensus exactly when it occurs at least `minAgreement`
      times over all returned findings (repeats within one instance count), and
      its representative is the last finding with that key. */
  lemma ConsensusKeeps(results: seq<Outcome>, minAgreement: int)
    ensures var all := Gathered(results);
      forall k :: k in KeySet(all) ==>
        ((exists x :: x in Consensus(results, minAgreement).findings && Key(x) == k)
         <==> Occurrences(all, k) >= minAgreement)
    ensures var all := Gathered(results);
      forall x :: x in Consensus(results, minAgreement).findings ==>
        Key(x) in KeySet(all) && Occurrences(all, Key(x)) >= minAgreement && x == LastOf(all, Key(x))
  {
    var all := Gathered(results);
    var t := TallyOf(all);
    TallyKeys(all);
    TallyValues(all);
    AgreedFacts(t.order, t.table, minAgreement);
    forall k | k in KeySet(all)
      ensures (exists x :: x in Consensus(results, minAgreement).findings && Key(x) == k)
              <==> Occurrences(all, k) >= minAgreement
    {
      if Occurrences(all, k) >= minAgreement {
        assert t.table[k].0 in Consensus(results, minAgreement).findings;
      }
    }
  }

  // ----- validate_parallel -----

  /** The outcomes of instances 0 .. n-1, in submission order. */
  function Outcomes(n: nat, run: nat -> Outcome): (r: seq<Outcome>)
    ensures |r| == n && forall i :: 0 <= i < n ==> r[i] == run(i)
  {
    seq(n, i requires 0 <= i < n => run(i))
  }

  /** How many of instances 0 .. n-1 returned, counted instance by instance. */
  function ReturnedBelow(n: nat, run: nat -> Outcome): nat {
    if n == 0 then 0 else ReturnedBelow(n - 1, run) + (if run(n - 1).Returned? then 1 else 0)
  }

  lemma {:induction false} SuccessfulSnoc(results: seq<Outcome>, o: Outcome)
    ensures Successful(results + [o]) == Successful(results) + (if o.Returned? then 1 else 0)
    decreases |results|
  {
    if |results| == 0 {
      assert [o][1..] == [];
    } else {
      assert (results + [o])[1..] == results[1..] + [o];
      SuccessfulSnoc(results[1..], o);
    }
  }

  /** The merge's count of successful instances is the per-instance count. */
  lemma {:induction false} ReturnedCounted(n: nat, run: nat -> Outcome)
    ensures Successful(Outcomes(n, run)) == ReturnedBelow(n, run)
    decreases n
  {
    if n > 0 {
      assert Outcomes(n, run) == Outcomes(n - 1, run) + [run(n - 1)];
      SuccessfulSnoc(Outcomes(n - 1, run), run(n - 1));
      ReturnedCounted(n - 1, run);
    }
  }

  /** Every instance succeeded exactly when none raised. */
  lemma {:induction false} AllReturned(results: seq<Outcome>)
    ensures Successful(results) == |results| <==> forall i :: 0 <= i < |results| ==> results[i].Returned?
    decreases |results|
  {
    if |results| > 0 {
      var rest := results[1..];
      AllReturned(rest);
      if Successful(results) == |results| {
        forall i | 0 <= i < |results|
          ensures results[i].Returned?
        {
          if i > 0 {
            assert results[i] == rest[i - 1];
          }
        }
      } else if results[0].Returned? {
        var j :| 0 <= j < |rest| && !rest[j].Returned?;
        assert results[j + 1] == rest[j];
      }
    }
  }

  /** A finding is gathered exactly when some instance returned it. */
  lemma {:induction false} GatheredFrom(results: seq<Outcome>, f: Finding)
    ensures f in Gathered(results) <==>
      exists i :: 0 <= i < |results| && results[i].Returned? && f in results[i].findings
    decreases |results|
  {
    if |results| > 0 {
      var rest := results[1..];
      GatheredFrom(rest, f);
      if f in Gathered(rest) {
        var j :| 0 <= j < |rest| && rest[j].Returned? && f in rest[j].findings;
        assert results[j + 1] == rest[j];
      }
      if exists i :: 0 <= i < |results| && results[i].Returned? && f in results[i].findings {
        var i :| 0 <= i < |results| && results[i].Returned? && f in results[i].findings;
        if i > 0 {
          assert rest[i - 1] == results[i];
        }
      }
    }
  }

  /** A key is merged exactly when some instance returned a finding with it. */
  lemma MergedKey(n: nat, run: nat -> Outcome, k: string)
    ensures k in KeySet(Merge(Outcomes(n, run)).findings) <==>
      exists i :: 0 <= i < n && run(i).Returned? && k in KeySet(run(i).findings)
  {
    var outs := Outcomes(n, run);
    assert KeySet(Merge(outs).findings) == KeySet(Gathered(outs));
    if k in KeySet(Gathered(outs)) {
      var f :| f in Gathered(outs) && Key(f) == k;
      GatheredFrom(outs, f);
      var i :| 0 <= i < n && outs[i].Returned? && f in outs[i].findings;
      assert k in KeySet(run(i).findings);
    }
    if exists i :: 0 <= i < n && run(i).Returned? && k in KeySet(run(i).findings) {
      var i :| 0 <= i < n && run(i).Returned? && k in KeySet(run(i).findings);
      var f :| f in run(i).findings && Key(f) == k;
      GatheredFrom(outs, f);
      assert f in Gathered(outs);
    }
  }

  /** An instance that raised is named in the merged error. */
  lemma MergedError(n: nat, run: nat -> Outcome, i: nat)
    requires i < n && run(i).Threw?
    ensures Merge(Outcomes(n, run)).error.Some?
    ensures Contains(Merge(Outcomes(n, run)).error.value, "Agent " + NatToString(i) + ": " + run(i).message)
  {
    var outs := Outcomes(n, run);
    AllReturned(outs);
    var entry := "Agent " + NatToString(i) + ": " + run(i).message;
    var errors := ErrorsFrom(outs, 0);
    ErrorsListed(outs, 0, i);
    var k :| 0 <= k < |errors| && errors[k] == entry;
    var a, b := JoinSplit(errors, k, "; ");
    ContainsSpliced(a, entry, b);
  }

  /** What the merge of instances 0 .. n-1 reports, stated per instance. */
  lemma OutcomesMerged(n: nat, run: nat -> Outcome)
    ensures Merge(Outcomes(n, run)).agentCount == ReturnedBelow(n, run)
    ensures Merge(Outcomes(n, run)).error.None? <==> forall i :: 0 <= i < n ==> run(i).Returned?
    ensures forall k :: k in KeySet(Merge(Outcomes(n, run)).findings) <==>
      exists i :: 0 <= i < n && run(i).Returned? && k in KeySet(run(i).findings)
    ensures forall i :: 0 <= i < n && run(i).Threw? ==>
      Merge(Outcomes(n, run)).error.Some?
      && Contains(Merge(Outcomes(n, run)).error.value, "Agent " + NatToString(i) + ": " + run(i).message)
  {
    ReturnedCounted(n, run);
    AllReturned(Outcomes(n, run));
    forall k {
      MergedKey(n, run, k);
    }
    forall i | 0 <= i < n && run(i).Threw? {
      MergedError(n, run, i);
    }
  }

  /** `validate_parallel`: `count` instances run and their outcomes are
      merged: the count of instances that returned, an error exactly when one
      raised, naming each one that did, and the keys of every finding
      returned. */
  function ValidateParallel(count: int, run: nat -> Outcome): (r: MergedResult)
    ensures var n := if count < 0 then 0 else count;
      r.agentCount <= n && (r.error.None? <==> r.agentCount == n)
    ensures var n := if count < 0 then 0 else count;
      r.agentCount == ReturnedBelow(n, run)
    ensures var n := if count < 0 then 0 else count;
      r.error.None? <==> forall i :: 0 <= i < n ==> run(i).Returned?
    ensures var n := if count < 0 then 0 else count;
      forall i :: 0 <= i < n && run(i).Threw? ==>
        r.error.Some? && Contains(r.error.value, "Agent " + NatToString(i) + ": " + run(i).message)
    ensures var n := if count < 0 then 0 else count;
      forall k :: k in KeySet(r.findings) <==>
        exists i :: 0 <= i < n && run(i).Returned? && k in KeySet(run(i).findings)
    ensures r.success <==> r.agentCount > 0
    ensures r.fixRequired <==> |r.findings| > 0
    ensures DistinctKeys(r.findings)
    ensures var all := Gathered(Outcomes(if count < 0 then 0 else count, run));
      forall x :: x in r.findings ==> x in all && FirstOf(all, Key(x)) == x
  {
    var n := |CreateAgents(count, ())|;
    OutcomesMerged(n, run);
    Merge(Outcomes(n, run))
  }
}
