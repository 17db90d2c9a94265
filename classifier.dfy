/**
 * The packet classifier of the web application: the conjunctive multi-field
 * matcher `filter_packets` and the protocol-only matcher used by the protocol
 * search, over the field positions a packet record uses.
 */
module Classifier {
  import opened Wrappers
  import opened PyValues
  import opened OrderedMaps

  /** A packet record: its fields addressed by position, the packet id first. */
  type Packet = seq<int>

  /** One entry of `rule_objs`: a lookup structure and the packet position it tests. */
  type RulePair = (OrderedMap<PyValue>, int)

  const IdIndex: int := 0
  const SrcIpIndex: int := 1
  const DstIpIndex: int := 2
  const SrcPortIndex: int := 3
  const DstPortIndex: int := 4
  const ProtoIndex: int := 5

  /** Python accepts `pkt[idx]` for `-len(pkt) <= idx < len(pkt)`. */
  predicate InRange(pkt: Packet, idx: int) {
    -|pkt| <= idx < |pkt|
  }

  /** `pkt[idx]`, negative positions counting from the end. */
  function PyIndex(pkt: Packet, idx: int): int
    requires InRange(pkt, idx)
  {
    if idx < 0 then pkt[|pkt| + idx] else pkt[idx]
  }

  /** `pkt[0]`, the value `filter_packets` reports for a matching packet. */
  function Id(pkt: Packet): int
    requires |pkt| > 0
  {
    pkt[IdIndex]
  }

  /** Every position named in `rules` can be read from `pkt`. */
  predicate Fits(pkt: Packet, rules: seq<RulePair>) {
    forall j :: 0 <= j < |rules| ==> InRange(pkt, rules[j].1)
  }

  /** Every packet has an id and every position named in `rules`. */
  predicate WellFormed(ps: seq<Packet>, rules: seq<RulePair>) {
    forall i :: 0 <= i < |ps| ==> |ps[i]| > 0 && Fits(ps[i], rules)
  }

  /** The lookup structures that the classifier consults. */
  function RuleMaps(rules: seq<RulePair>): set<OrderedMap<PyValue>> {
    set p | p in rules :: p.0
  }

  /** The test of a single pair: the truthiness of `rule.find(pkt[idx])`. */
  predicate PairHolds(pkt: Packet, p: RulePair)
    requires InRange(pkt, p.1)
    reads p.0
  {
    Hit(p.0.Find(PyIndex(pkt, p.1)))
  }

  /** `all(rule.find(pkt[idx]) for rule, idx in rules)`, evaluated left to right. */
  predicate Matches(pkt: Packet, rules: seq<RulePair>)
    requires Fits(pkt, rules)
    reads RuleMaps(rules)
    ensures Matches(pkt, rules) ==> forall j :: 0 <= j < |rules| ==> PairHolds(pkt, rules[j])
    decreases |rules|
  {
    rules == [] || (PairHolds(pkt, rules[0]) && Matches(pkt, rules[1..]))
  }

  /** `filter_packets(packets, rule_objs)`: the ids of the matching packets, in input order. */
  function FilterPackets(ps: seq<Packet>, rules: seq<RulePair>): (r: seq<int>)
    requires WellFormed(ps, rules)
    reads RuleMaps(rules)
    ensures |r| <= |ps|
    decreases |ps|
  {
    if ps == [] then []
    else
      var last := ps[|ps| - 1];
      FilterPackets(ps[..|ps| - 1], rules) + (if Matches(last, rules) then [Id(last)] else [])
  }

  /** The comprehension of `protocol_search`: ids of the packets whose protocol field hits `rule`. */
  function ProtocolMatches(ps: seq<Packet>, rule: OrderedMap<PyValue>): (r: seq<int>)
    requires forall i :: 0 <= i < |ps| ==> |ps[i]| > ProtoIndex
    reads rule
    ensures |r| <= |ps|
    decreases |ps|
  {
    if ps == [] then []
    else
      var last := ps[|ps| - 1];
      ProtocolMatches(ps[..|ps| - 1], rule) + (if Hit(rule.Find(last[ProtoIndex])) then [Id(last)] else [])
  }

  // ---------------------------------------------------------------------------
  // Conjunction semantics

  /** A packet matches exactly when every pair holds: `all` is a conjunction, true on no pairs. */
  lemma {:induction false} MatchesAll(pkt: Packet, rules: seq<RulePair>)
    requires Fits(pkt, rules)
    ensures Matches(pkt, rules) <==> forall j :: 0 <= j < |rules| ==> PairHolds(pkt, rules[j])
  {
    if rules != [] {
      MatchesAll(pkt, rules[1..]);
      assert forall j :: 1 <= j < |rules| ==> rules[j] == rules[1..][j - 1];
    }
  }

  /** One field that is absent from its map, or maps to a falsy payload, rejects the packet. */
  lemma MissRejects(pkt: Packet, rules: seq<RulePair>, j: int)
    requires Fits(pkt, rules)
    requires 0 <= j < |rules| && !Hit(rules[j].0.Find(PyIndex(pkt, rules[j].1)))
    ensures !Matches(pkt, rules)
  {
  }

  /** Matching depends only on which pairs are present: more pairs can only reject more. */
  lemma MatchesMonotone(pkt: Packet, rules: seq<RulePair>, more: seq<RulePair>)
    requires Fits(pkt, rules) && Fits(pkt, more)
    requires forall p :: p in rules ==> p in more
    ensures Matches(pkt, more) ==> Matches(pkt, rules)
  {
    MatchesAll(pkt, rules);
    MatchesAll(pkt, more);
    if Matches(pkt, more) {
      forall j | 0 <= j < |rules|
        ensures PairHolds(pkt, rules[j])
      {
        assert rules[j] in more;
        var k :| 0 <= k < |more| && more[k] == rules[j];
      }
    }
  }

  // ---------------------------------------------------------------------------
  // Properties of filter_packets

  /** The positions of `ps` picked out by a filter: increasing, and exactly the matching ones. */
  ghost predicate IsSelection(ix: seq<int>, ps: seq<Packet>, rules: seq<RulePair>)
    requires WellFormed(ps, rules)
    reads RuleMaps(rules)
  {
    && (forall j :: 0 <= j < |ix| ==> 0 <= ix[j] < |ps|)
    && (forall j, k :: 0 <= j < k < |ix| ==> ix[j] < ix[k])
    && (forall i :: 0 <= i < |ps| ==> (i in ix <==> Matches(ps[i], rules)))
  }

  /**
   * The result is exactly the ids of the matching packets, in their input order:
   * it is the ids read at an increasing list of positions that holds every
   * matching position and no other.
   */
  lemma {:induction false} FilterPacketsSelects(ps: seq<Packet>, rules: seq<RulePair>)
    requires WellFormed(ps, rules)
    ensures exists ix :: IsSelection(ix, ps, rules) && |ix| == |FilterPackets(ps, rules)|
                         && forall j :: 0 <= j < |ix| ==> FilterPackets(ps, rules)[j] == Id(ps[ix[j]])
  {
    if ps == [] {
      assert IsSelection([], ps, rules);
    } else {
      var n := |ps| - 1;
      var pre := ps[..n];
      FilterPacketsSelects(pre, rules);
      var ix' :| IsSelection(ix', pre, rules) && |ix'| == |FilterPackets(pre, rules)|
                 && forall j :: 0 <= j < |ix'| ==> FilterPackets(pre, rules)[j] == Id(pre[ix'[j]]);
      SelectionStep(ps, rules, ix');
      SelectedIdsStep(ps, rules, ix');
    }
  }

  /** The ids read at the extended selection are the result of filtering all packets. */
  lemma SelectedIdsStep(ps: seq<Packet>, rules: seq<RulePair>, ix': seq<int>)
    requires ps != [] && WellFormed(ps, rules)
    requires forall j :: 0 <= j < |ix'| ==> 0 <= ix'[j] < |ps| - 1
    requires |ix'| == |FilterPackets(ps[..|ps| - 1], rules)|
    requires forall j :: 0 <= j < |ix'| ==> FilterPackets(ps[..|ps| - 1], rules)[j] == Id(ps[..|ps| - 1][ix'[j]])
    ensures var ix := if Matches(ps[|ps| - 1], rules) then ix' + [|ps| - 1] else ix';
            && |ix| == |FilterPackets(ps, rules)|
            && forall j :: 0 <= j < |ix| ==> 0 <= ix[j] < |ps| && FilterPackets(ps, rules)[j] == Id(ps[ix[j]])
  {
  }

  /** Extends the selection of all but the last packet by the last packet's position when it matches. */
  lemma SelectionStep(ps: seq<Packet>, rules: seq<RulePair>, ix': seq<int>)
    requires ps != [] && WellFormed(ps, rules)
    requires IsSelection(ix', ps[..|ps| - 1], rules)
    ensures IsSelection(if Matches(ps[|ps| - 1], rules) then ix' + [|ps| - 1] else ix', ps, rules)
  {
  }

  /** With no rule pairs every packet passes, since `all([])` is true. */
  lemma {:induction false} NoRulesKeepsAll(ps: seq<Packet>)
    requires WellFormed(ps, [])
    ensures |FilterPackets(ps, [])| == |ps|
    ensures forall i :: 0 <= i < |ps| ==> FilterPackets(ps, [])[i] == Id(ps[i])
  {
    if ps != [] {
      NoRulesKeepsAll(ps[..|ps| - 1]);
    }
  }

  /** An id that no matching packet carries never appears in the result. */
  lemma {:induction false} RejectedIdAbsent(ps: seq<Packet>, rules: seq<RulePair>, x: int)
    requires WellFormed(ps, rules)
    requires forall i :: 0 <= i < |ps| && Id(ps[i]) == x ==> !Matches(ps[i], rules)
    ensures x !in FilterPackets(ps, rules)
  {
    if ps != [] {
      RejectedIdAbsent(ps[..|ps| - 1], rules, x);
    }
  }

  /** Filtering distributes over concatenation of packet lists. */
  lemma {:induction false} FilterConcat(a: seq<Packet>, b: seq<Packet>, rules: seq<RulePair>)
    requires WellFormed(a, rules) && WellFormed(b, rules)
    ensures WellFormed(a + b, rules)
    ensures FilterPackets(a + b, rules) == FilterPackets(a, rules) + FilterPackets(b, rules)
  {
    assert forall i :: 0 <= i < |a + b| ==> (a + b)[i] == if i < |a| then a[i] else b[i - |a|];
    if b != [] {
      var n := |b| - 1;
      assert (a + b)[..|a + b| - 1] == a + b[..n];
      FilterConcat(a, b[..n], rules);
    } else {
      assert a + b == a;
    }
  }

  /** `a` can be obtained from `b` by deleting elements. */
  ghost predicate IsSubsequence(a: seq<int>, b: seq<int>)
    decreases |b|
  {
    || a == []
    || (b != [] &&
         (|| (a[|a| - 1] == b[|b| - 1] && IsSubsequence(a[..|a| - 1], b[..|b| - 1]))
          || IsSubsequence(a, b[..|b| - 1])))
  }

  /** Adding pairs to `rule_objs` can only remove packets from the result, never add any. */
  lemma {:induction false} MoreRulesFewerMatches(ps: seq<Packet>, rules: seq<RulePair>, more: seq<RulePair>)
    requires WellFormed(ps, rules) && WellFormed(ps, more)
    requires forall p :: p in rules ==> p in more
    ensures IsSubsequence(FilterPackets(ps, more), FilterPackets(ps, rules))
  {
    if ps != [] {
      var n := |ps| - 1;
      MoreRulesFewerMatches(ps[..n], rules, more);
      MatchesMonotone(ps[n], rules, more);
      var a, b := FilterPackets(ps[..n], more), FilterPackets(ps[..n], rules);
      if Matches(ps[n], more) {
        assert FilterPackets(ps, more) == a + [Id(ps[n])];
        assert FilterPackets(ps, rules) == b + [Id(ps[n])];
        assert (a + [Id(ps[n])])[..|a|] == a;
        assert (b + [Id(ps[n])])[..|b|] == b;
      } else if Matches(ps[n], rules) {
        assert FilterPackets(ps, more) == a;
        assert FilterPackets(ps, rules) == b + [Id(ps[n])];
        assert (b + [Id(ps[n])])[..|b|] == b;
      } else {
        assert FilterPackets(ps, more) == a;
        assert FilterPackets(ps, rules) == b;
      }
    }
  }

  /** Reordering the pairs of `rule_objs` does not change the result. */
  lemma {:induction false} ReorderedRulesSameResult(ps: seq<Packet>, rules: seq<RulePair>, reordered: seq<RulePair>)
    requires WellFormed(ps, rules)
    requires multiset(rules) == multiset(reordered)
    ensures WellFormed(ps, reordered)
    ensures FilterPackets(ps, rules) == FilterPackets(ps, reordered)
  {
    assert forall p :: p in rules <==> p in reordered by {
      forall p ensures p in rules <==> p in reordered {
        assert p in rules <==> p in multiset(rules);
        assert p in reordered <==> p in multiset(reordered);
      }
    }
    forall i, j | 0 <= i < |ps| && 0 <= j < |reordered|
      ensures InRange(ps[i], reordered[j].1)
    {
      assert reordered[j] in rules;
      var k :| 0 <= k < |rules| && rules[k] == reordered[j];
    }
    if ps != [] {
      var n := |ps| - 1;
      ReorderedRulesSameResult(ps[..n], rules, reordered);
      MatchesMonotone(ps[n], rules, reordered);
      MatchesMonotone(ps[n], reordered, rules);
    }
  }

  /**
   * The result depends only on what each lookup structure maps, never on which
   * backend holds it: two index lists whose pairs agree on contents and positions
   * select the same ids.
   */
  lemma {:induction false} SameContentsSameResult(ps: seq<Packet>, a: seq<RulePair>, b: seq<RulePair>)
    requires WellFormed(ps, a) && |a| == |b|
    requires forall j :: 0 <= j < |a| ==> a[j].1 == b[j].1 && a[j].0.entries == b[j].0.entries
    ensures WellFormed(ps, b)
    ensures FilterPackets(ps, a) == FilterPackets(ps, b)
  {
    if ps != [] {
      var n := |ps| - 1;
      SameContentsSameResult(ps[..n], a, b);
      MatchesAll(ps[n], a);
      MatchesAll(ps[n], b);
    }
  }

  /** The protocol-only comprehension is `filter_packets` with the single pair `(rule, PROTO_IDX)`. */
  lemma {:induction false} ProtocolSearchIsSingleFieldFilter(ps: seq<Packet>, rule: OrderedMap<PyValue>)
    requires forall i :: 0 <= i < |ps| ==> |ps[i]| > ProtoIndex
    ensures WellFormed(ps, [(rule, ProtoIndex)])
    ensures ProtocolMatches(ps, rule) == FilterPackets(ps, [(rule, ProtoIndex)])
  {
    if ps != [] {
      ProtocolSearchIsSingleFieldFilter(ps[..|ps| - 1], rule);
      MatchesAll(ps[|ps| - 1], [(rule, ProtoIndex)]);
    }
  }
}
