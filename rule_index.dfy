/**
 * Building the lookup structures from rule tables (`build_rules`), the five-field
 * index of the IP packet search, and the comparison of the two backends on it.
 */
module RuleIndex {
  import opened Wrappers
  import opened PyValues
  import opened OrderedMaps
  import opened Classifier

  /** A rule dictionary as its `items()` iterate: key and payload pairs, in insertion order. */
  type Items<V> = seq<(DictKey, V)>

  /** Every key converts with `int(...)`; otherwise `build_rules` stops with `ValueError`. */
  predicate AllNumeric<V>(items: Items<V>) {
    forall i :: 0 <= i < |items| ==> ToInt(items[i].0).Some?
  }

  /** The mapping left by inserting `(int(k), v)` for every item, in iteration order. */
  function FromItems<V>(items: Items<V>): map<int, V>
    requires AllNumeric(items)
  {
    if items == [] then map[]
    else
      var (k, v) := items[|items| - 1];
      FromItems(items[..|items| - 1])[ToInt(k).value := v]
  }

  /** `build_rules(rule_class, rules_dict)`: a fresh structure of the given backend holding every item. */
  method BuildRules<V>(backend: Backend, items: Items<V>) returns (m: OrderedMap<V>)
    requires AllNumeric(items)
    ensures fresh(m) && m.backend == backend
    ensures m.entries == FromItems(items)
    ensures forall i :: 0 <= i < |items| ==> m.Find(ToInt(items[i].0).value).Some?
  {
    m := new OrderedMap(backend);
    for i := 0 to |items|
      invariant m.entries == FromItems(items[..i])
    {
      assert items[..i + 1][..i] == items[..i];
      m.Insert(ToInt(items[i].0).value, items[i].1);
    }
    assert items[..|items|] == items;
    forall i | 0 <= i < |items|
      ensures ToInt(items[i].0).value in m.entries
    {
      FromItemsKeys(items, ToInt(items[i].0).value);
    }
  }

  /** A key is present exactly when some dictionary key converts to it; keys not of the form `int(k)` are absent. */
  lemma {:induction false} FromItemsKeys<V>(items: Items<V>, key: int)
    requires AllNumeric(items)
    ensures key in FromItems(items) <==> exists i :: 0 <= i < |items| && ToInt(items[i].0) == Some(key)
  {
    if items != [] {
      var n := |items| - 1;
      FromItemsKeys(items[..n], key);
      if exists i :: 0 <= i < |items| && ToInt(items[i].0) == Some(key) {
        var i :| 0 <= i < |items| && ToInt(items[i].0) == Some(key);
        if i < n {
          assert items[..n][i] == items[i];
        }
      } else {
        forall i | 0 <= i < n
          ensures ToInt(items[..n][i].0) != Some(key)
        {
          assert items[..n][i] == items[i];
        }
      }
    }
  }

  /**
   * The payload stored for a key is that of the last item, in iteration order,
   * whose key converts to it: of two keys such as "1" and "01" the later wins.
   */
  lemma {:induction false} LastInsertWins<V>(items: Items<V>, i: int)
    requires AllNumeric(items) && 0 <= i < |items|
    requires forall j :: i < j < |items| ==> ToInt(items[j].0) != ToInt(items[i].0)
    ensures ToInt(items[i].0).value in FromItems(items)
    ensures FromItems(items)[ToInt(items[i].0).value] == items[i].1
  {
    var n := |items| - 1;
    if i < n {
      assert items[..n][i] == items[i];
      forall j | i < j < n
        ensures ToInt(items[..n][j].0) != ToInt(items[..n][i].0)
      {
        assert items[..n][j] == items[j];
      }
      LastInsertWins(items[..n], i);
    }
  }

  /** The five rule tables the loader produces, one per packet field. */
  datatype RuleSet = RuleSet(
    sourceIp: Items<PyValue>,
    destIp: Items<PyValue>,
    sourcePort: Items<PyValue>,
    destPort: Items<PyValue>,
    protocol: Items<PyValue>)

  predicate Loadable(rs: RuleSet) {
    && AllNumeric(rs.sourceIp) && AllNumeric(rs.destIp)
    && AllNumeric(rs.sourcePort) && AllNumeric(rs.destPort) && AllNumeric(rs.protocol)
  }

  /** The field position each rule table is tested against, in the order of the index list. */
  function FieldPositions(): (r: seq<int>)
    ensures |r| == 5 && forall j :: 0 <= j < 5 ==> r[j] == j + 1
  {
    [SrcIpIndex, DstIpIndex, SrcPortIndex, DstPortIndex, ProtoIndex]
  }

  /** The tables of `rs` in the order of the index list. */
  function Tables(rs: RuleSet): seq<Items<PyValue>> {
    [rs.sourceIp, rs.destIp, rs.sourcePort, rs.destPort, rs.protocol]
  }

  /**
   * The index list `[(build_rules(backend, table), position), ...]` of the IP
   * packet search: five fresh structures of one backend, one per field.
   */
  method BuildIndex(backend: Backend, rs: RuleSet) returns (index: seq<RulePair>)
    requires Loadable(rs)
    ensures |index| == 5
    ensures forall j :: 0 <= j < 5 ==> index[j].1 == FieldPositions()[j]
    ensures forall j :: 0 <= j < 5 ==> AllNumeric(Tables(rs)[j]) && index[j].0.entries == FromItems(Tables(rs)[j])
    ensures forall j :: 0 <= j < 5 ==> fresh(index[j].0) && index[j].0.backend == backend
    ensures forall j, k :: 0 <= j < k < 5 ==> index[j].0 != index[k].0
  {
    var srcIp := BuildRules(backend, rs.sourceIp);
    var dstIp := BuildRules(backend, rs.destIp);
    var srcPort := BuildRules(backend, rs.sourcePort);
    var dstPort := BuildRules(backend, rs.destPort);
    var proto := BuildRules(backend, rs.protocol);
    index := [(srcIp, SrcIpIndex), (dstIp, DstIpIndex), (srcPort, SrcPortIndex),
              (dstPort, DstPortIndex), (proto, ProtoIndex)];
  }

  /** Every packet carries the id and the five fields of the IP packet search. */
  predicate FullRecords(ps: seq<Packet>) {
    forall i :: 0 <= i < |ps| ==> |ps[i]| > ProtoIndex
  }

  /**
   * The IP packet search run on a skip-list-backed and on a splay-tree-backed
   * index built from the same rule tables: the backend never changes the result.
   */
  method CompareBackends(ps: seq<Packet>, rs: RuleSet)
    returns (skipIndex: seq<RulePair>, splayIndex: seq<RulePair>, skipIds: seq<int>, splayIds: seq<int>)
    requires Loadable(rs) && FullRecords(ps)
    ensures |skipIndex| == 5 && |splayIndex| == 5
    ensures forall j :: 0 <= j < 5 ==> AllNumeric(Tables(rs)[j])
    ensures forall j :: 0 <= j < 5 ==>
              && skipIndex[j].0.backend == SkipList && splayIndex[j].0.backend == SplayTree
              && skipIndex[j].1 == splayIndex[j].1 == FieldPositions()[j]
              && skipIndex[j].0.entries == splayIndex[j].0.entries == FromItems(Tables(rs)[j])
    ensures WellFormed(ps, skipIndex) && WellFormed(ps, splayIndex)
    ensures skipIds == FilterPackets(ps, skipIndex) && splayIds == FilterPackets(ps, splayIndex)
    ensures skipIds == splayIds
  {
    skipIndex := BuildIndex(SkipList, rs);
    splayIndex := BuildIndex(SplayTree, rs);
    assert WellFormed(ps, skipIndex);
    skipIds := FilterPackets(ps, skipIndex);
    SameContentsSameResult(ps, skipIndex, splayIndex);
    splayIds := FilterPackets(ps, splayIndex);
  }

  /**
   * The protocol table {6: "tcp-rule", 17: "udp-rule"} with packets whose protocol
   * fields are 6, 17 and 47: the protocol search selects the first two ids only.
   */
  method ProtocolScenario(backend: Backend) returns (ids: seq<int>)
    ensures ids == [1, 2]
  {
    var rule := BuildRules(backend, [(IntKey(6), PyStr("tcp-rule")), (IntKey(17), PyStr("udp-rule"))]);
    assert [(IntKey(6), PyStr("tcp-rule")), (IntKey(17), PyStr("udp-rule"))][..1][..0] == [];
    assert rule.entries == map[6 := PyStr("tcp-rule"), 17 := PyStr("udp-rule")];
    var ps: seq<Packet> := [[1, 10, 20, 30, 40, 6], [2, 10, 20, 30, 40, 17], [3, 10, 20, 30, 40, 47]];
    assert ps[..2][..1] == ps[..1] && ps[..1][..0] == [];
    assert ProtocolMatches(ps[..1], rule) == [1];
    assert ProtocolMatches(ps[..2], rule) == [1, 2];
    ids := ProtocolMatches(ps, rule);
  }

  /**
   * A payload that Python treats as false rejects a packet exactly as a missing
   * key does: with protocol 6 mapped to 0, a packet of protocol 6 is not selected.
   */
  method FalsyPayloadScenario(backend: Backend) returns (ids: seq<int>)
    ensures ids == []
  {
    var rule := BuildRules(backend, [(IntKey(6), PyInt(0)), (IntKey(17), PyStr(""))]);
    assert [(IntKey(6), PyInt(0)), (IntKey(17), PyStr(""))][..1][..0] == [];
    assert rule.entries == map[6 := PyInt(0), 17 := PyStr("")];
    var ps: seq<Packet> := [[1, 10, 20, 30, 40, 6], [2, 10, 20, 30, 40, 17]];
    assert ps[..1][..0] == [];
    assert ProtocolMatches(ps[..1], rule) == [];
    ids := ProtocolMatches(ps, rule);
  }

  /**
   * Tables of one entry each: the packet carrying all five values is selected, and
   * a packet differing from it in the destination port only is not.
   */
  method FiveFieldScenario(backend: Backend) returns (ids: seq<int>)
    ensures ids == [7]
  {
    var rs := RuleSet([(IntKey(167772161), PyStr("r1"))], [(IntKey(167772162), PyStr("r1"))],
                      [(IntKey(1024), PyStr("r1"))], [(IntKey(80), PyStr("r1"))],
                      [(IntKey(6), PyStr("r1"))]);
    var index := BuildIndex(backend, rs);
    var ps: seq<Packet> := [[7, 167772161, 167772162, 1024, 80, 6], [8, 167772161, 167772162, 1024, 443, 6]];
    forall j | 0 <= j < 5
      ensures index[j].0.entries == map[ps[0][j + 1] := PyStr("r1")]
      ensures PairHolds(ps[0], index[j])
    {
      assert Tables(rs)[j][..0] == [];
      assert Tables(rs)[j] == [(IntKey(ps[0][j + 1]), PyStr("r1"))];
      assert index[j].1 == j + 1;
    }
    MatchesAll(ps[0], index);
    assert index[3].0.Find(ps[1][4]) == None;
    MissRejects(ps[1], index, 3);
    assert ps[..1][..0] == [];
    assert FilterPackets(ps[..1], index) == [7];
    ids := FilterPackets(ps, index);
  }

  /** The string keys "1" and "01" both convert to 1; the one iterated later wins. */
  method KeyCollisionScenario(backend: Backend) returns (found: Option<PyValue>)
    ensures found == Some(PyStr("second"))
  {
    var m := BuildRules(backend, [(StrKey("1"), PyStr("first")), (StrKey("01"), PyStr("second"))]);
    found := m.Find(1);
  }
}
