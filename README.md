# Packet classification over interchangeable lookup structures

This project models the packet classifier of the Skip-vs-Splay packet analysis web
application. The application loads access-control rules into five lookup
structures, one per packet field: source IP, destination IP, source port,
destination port and protocol. It then selects the packets that every structure
accepts. Each structure is either a skip list or a splay tree, and the
application compares how fast the two backends are.

The model covers the following:

- `filter_packets` is `Classifier.FilterPackets`. For each packet it tests every
  `(rule, idx)` pair with the truthiness of `rule.find(pkt[idx])`, which is
  `Classifier.Matches`. It returns the ids `pkt[0]` of the packets that pass,
  in input order.
- The protocol-only comprehension of `protocol_search` is
  `Classifier.ProtocolMatches`.
- `build_rules` is `RuleIndex.BuildRules`. It creates a fresh structure and
  inserts `(int(k), v)` for every dictionary item in iteration order. The loop
  invariant ties the structure to `RuleIndex.FromItems`.
- The five-field index list of the IP packet search is `RuleIndex.BuildIndex`.
  `RuleIndex.CompareBackends` runs that search once on each backend.
- The field positions `SRC_IP_IDX` … `PROTO_IDX` are the constants
  `Classifier.SrcIpIndex` … `Classifier.ProtoIndex`. The id position 0 is
  `Classifier.IdIndex`.

The skip list and the splay tree appear only through their common contract,
`OrderedMaps.OrderedMap`. It records which backend an instance stands for and the
key-to-value mapping it represents. `Insert` overwrites, so the last write wins.
`Find` returns `Some(v)` or `None`. A lookup passes only when `find` returns a
value that Python treats as true (`PyValues.Hit`, `PyValues.Truthy`). A stored
`0`, `""`, `False`, `None` or `[]` therefore rejects a packet exactly as a
missing key does.

Rule dictionaries are sequences of `(key, payload)` items in iteration order.
A key is an `int` or a `str`. `int(...)` on a string is `PyValues.ParseInt`.
Packets are sequences of integers, and `pkt[idx]` follows Python's indexing,
including negative positions.

Three behaviours of the code shape the model:

- `build_rules` does not skip a key that `int(i)` cannot convert. The
  `ValueError` aborts the whole build (webapp.py:43). The model states this as
  the precondition `AllNumeric`.
- `filter_packets` returns the ids `pkt[0]` of the matching packets, not the
  packets themselves (webapp.py:20).
- Line 22 tests the truthiness of `find`'s result, not only whether the key is
  present (webapp.py:22).

## Model

| member | source | states |
|---|---|---|
| `Classifier.FilterPackets` | webapp.py:18-23 | the result never has more ids than there are packets |
| `Classifier.FilterPacketsSelects` | webapp.py:18-23 | the result is exactly the ids read at an increasing list of packet positions that contains every matching position and no other, so it holds the matching packets' ids in input order |
| `Classifier.Matches` | webapp.py:22 | the `all(rule.find(pkt[idx]) ...)` test, evaluated left to right; a packet it accepts satisfies every pair |
| `Classifier.MatchesAll` | webapp.py:22 | a packet matches if and only if every `(rule, idx)` pair finds a truthy value at `pkt[idx]`, which is vacuously true when there are no pairs |
| `Classifier.MissRejects` | webapp.py:22 | one field whose value is absent from its map, or maps to a falsy payload, rejects the packet |
| `Classifier.NoRulesKeepsAll` | webapp.py:18-23 | with an empty `rule_objs` the result is the id of every packet, in order |
| `Classifier.RejectedIdAbsent` | webapp.py:18-23 | an id carried by no matching packet is not in the result |
| `Classifier.FilterConcat` | webapp.py:19-23 | filtering the concatenation of two packet lists gives the concatenation of the two results |
| `Classifier.MatchesMonotone` | webapp.py:22 | a packet that passes a set of pairs also passes any subset of those pairs |
| `Classifier.MoreRulesFewerMatches` | webapp.py:22 | adding pairs to `rule_objs` turns the result into a subsequence of the old result, so it can only remove ids |
| `Classifier.ReorderedRulesSameResult` | webapp.py:22 | a permutation of `rule_objs` gives the same result |
| `Classifier.SameContentsSameResult` | webapp.py:18-23 | two index lists whose pairs hold the same mappings at the same positions give the same result, whatever backend holds them |
| `Classifier.ProtocolMatches` | webapp.py:29 | the protocol comprehension never yields more ids than there are packets |
| `Classifier.ProtocolSearchIsSingleFieldFilter` | webapp.py:29 | the protocol comprehension equals `filter_packets` with the single pair `(rule, PROTO_IDX)` |
| `OrderedMaps.OrderedMap.constructor` | webapp.py:41 | a new structure is empty: `find` reports absence for every key |
| `OrderedMaps.OrderedMap.Find` | webapp.py:22 | `rule.find(key)` gives a value exactly when the key was inserted, and that value is the one stored for the key |
| `OrderedMaps.OrderedMap.Insert` | webapp.py:43 | after `insert(k, v)`, `find(k)` gives `v` and every other key keeps its lookup result |
| `RuleIndex.BuildRules` | webapp.py:40-44 | the fresh structure maps what inserting every `(int(k), v)` in iteration order leaves, and every dictionary key is findable |
| `RuleIndex.FromItemsKeys` | webapp.py:40-44 | an integer is a key of the built structure if and only if some dictionary key converts to it |
| `RuleIndex.LastInsertWins` | webapp.py:42-43 | the payload stored for an integer is the one of the last item in iteration order whose key converts to it |
| `RuleIndex.FieldPositions` | webapp.py:12-16 | the five tables are tested at positions 1 to 5 in order, right after the id at position 0 |
| `RuleIndex.BuildIndex` | webapp.py:86-104 | the IP search index holds five fresh, pairwise distinct structures of one backend, each built from its table and paired with its field position |
| `RuleIndex.CompareBackends` | webapp.py:86-107 | builds a skip-list index and a splay-tree index from the same tables, both holding each table's mapping at its field position; the ids it returns are `filter_packets` over each index, and the two lists are identical |
| `RuleIndex.ProtocolScenario` | webapp.py:29 | with protocol table {6, 17}, packets of protocol 6, 17 and 47 yield ids 1 and 2 only |
| `RuleIndex.FalsyPayloadScenario` | webapp.py:29 | payloads `0` and `""` reject packets whose protocol is present in the table |
| `RuleIndex.FiveFieldScenario` | webapp.py:18-23 | with one-entry tables, the packet carrying all five values passes, and a packet that differs in one field does not |
| `RuleIndex.KeyCollisionScenario` | webapp.py:40-44 | the keys "1" and "01" both become 1, and the later item's payload is the one found |
| `PyValues.ParseInt` | webapp.py:43 | `int(s)` on a string succeeds exactly for an optional sign followed by decimal digits; the result is negative only after a minus sign |
| `PyValues.IntAndStringKeysCollide` | webapp.py:43 | `int(k)` gives the same integer for an integer key and for its decimal string form |
| `PyValues.ParseDecimal` | webapp.py:43 | `int(str(n)) == n` for every integer `n`, including negative ones |
| `PyValues.LeadingZero` | webapp.py:43 | a leading zero does not change what `int(...)` gives for a digit string, so distinct strings can collide |

## Left out

- The Flask route `index` and its HTML page (webapp.py:143-220) are presentation only.
- `create_plot` (webapp.py:112-141) is charting only.
- The `time.time()` measurements in `protocol_search` and `time_and_filter` (webapp.py:25-38) are wall-clock timing. Only the comprehensions they time are modelled.
- `run_analysis` reads rule and packet files through `Rule_Set` and `Packet` (webapp.py:46-72). Rule_Set.py and Packet.py are not part of this model. Their results enter as `RuleIndex.RuleSet` and as packet sequences.
- `run_analysis` builds the protocol-search structures at webapp.py:75-83 by inserting the dictionary keys without `int(...)`. This is not modelled, because the key type that `Rule_Set` produces is not visible. The model's protocol search takes an already built structure.
- Skip_List.py and splaytree.py are not part of this model. The following are therefore not modelled: the internal node linkage, randomized leveling, splay rotations, the ascending in-order traversal, and the splay tree's "accessed key becomes the root" property. `Find` is a function. It captures that a splay-tree `find` never changes the key-to-value mapping, but not that it restructures the tree.
- `RuleIndex.BuildRules`: requires every key to convert. Python's `int()` raises `ValueError` otherwise and the whole build aborts. That abort path is not modelled.
- `PyValues.ParseInt`: accepts only an optional sign followed by ASCII digits. Python's `int()` also accepts surrounding whitespace, underscores between digits, non-ASCII digits and `bool` keys, so `RuleIndex.BuildRules` demands more of string keys than Python does.
- `Classifier.FilterPackets`: requires every position named in `rule_objs` to exist in every packet. Python raises `IndexError` otherwise, and `all(...)` skips positions after the first failing pair. That error path is not modelled.
- Packet fields are integers. Python would also compare values of other types against the integer keys, but the packet loader is not visible.
