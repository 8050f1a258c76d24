/** pkg/common/topology.go: topology segments from node labels and from create requests. */
module Topology {
  import opened Bytes
  import opened Wrappers

  const LEN_LIMIT := 63
  const DOMAIN_LABELS: Str := Ascii("domainLabels")

  datatype TopologyError = PrefixTooLong(prefix: Str) | DuplicateLabel(name: Str) | MissingLabels(labels: set<Str>)

  function LowerByte(c: byte): (r: byte)
    ensures !('A' as int <= r <= 'Z' as int) && (r == c || r - c == 'a' as int - 'A' as int)
  {
    if 'A' as int <= c <= 'Z' as int then c + 32 else c
  }

  /** strings.ToLower on the ASCII that a driver name is made of. */
  function ToLower(s: Str): (r: Str)
    ensures |r| == |s|
  {
    seq(|s|, i requires 0 <= i < |s| => LowerByte(s[i]))
  }

  function Prefix(driverName: Str): Str {
    ToLower(Ascii("topology.") + driverName)
  }

  /** The part of a label after its first '/', or all of it. */
  function Domain(name: Str): (r: Str)
    ensures SLASH !in name ==> r == name
    ensures SLASH in name ==> exists before: Str :: SLASH !in before && name == before + [SLASH] + r
  {
    if SLASH in name then AfterFirstSlash(name) else name
  }

  function AfterFirstSlash(s: Str): (r: Str)
    requires SLASH in s
    ensures exists before: Str :: SLASH !in before && s == before + [SLASH] + r
  {
    if s[0] == SLASH then
      assert s == [] + [SLASH] + s[1..];
      s[1..]
    else
      var r := AfterFirstSlash(s[1..]);
      assert exists before: Str :: SLASH !in before && s == before + [SLASH] + r by {
        var before: Str :| SLASH !in before && s[1..] == before + [SLASH] + r;
        assert SLASH !in [s[0]] + before && s == ([s[0]] + before) + [SLASH] + r;
      }
      r
  }

  function Segment(prefix: Str, domain: Str): Str {
    prefix + [SLASH] + domain
  }

  /** A segment in full: "topology.", the driver name in lower case, a slash and the name of the label. */
  lemma SegmentText(driverName: Str, domain: Str)
    requires forall i :: 0 <= i < |driverName| ==> !('A' as int <= driverName[i] <= 'Z' as int)
    ensures Segment(Prefix(driverName), domain) == Ascii("topology.") + driverName + Ascii("/") + domain
  {
    var text := Ascii("topology.");
    assert ToLower(text + driverName) == text + driverName;
    assert Ascii("/") == [SLASH];
  }

  /** The prefix in full: "topology." and the driver name in lower case, whatever its length. */
  lemma PrefixText(driverName: Str)
    ensures Prefix(driverName) == Ascii("topology.") + ToLower(driverName)
    ensures |Prefix(driverName)| == 9 + |driverName|
  {
    var text := Ascii("topology.");
    assert ToLower(text + driverName) == text + ToLower(driverName);
  }

  lemma SameLower(a: Str, b: Str)
    ensures ToLower(a) == ToLower(b) <==> |a| == |b| && forall i :: 0 <= i < |a| ==> LowerByte(a[i]) == LowerByte(b[i])
  {
    hide LowerByte;
    assert forall i :: 0 <= i < |a| ==> ToLower(a)[i] == LowerByte(a[i]);
    assert forall i :: 0 <= i < |b| ==> ToLower(b)[i] == LowerByte(b[i]);
  }

  /** Two driver names have the same prefix exactly when they differ in nothing but case. */
  lemma PrefixIgnoresCase(a: Str, b: Str)
    ensures Prefix(a) == Prefix(b) <==> |a| == |b| && forall i :: 0 <= i < |a| ==> LowerByte(a[i]) == LowerByte(b[i])
  {
    hide ToLower, Prefix, Ascii, LowerByte;
    PrefixText(a);
    PrefixText(b);
    SameLower(a, b);
    assert ToLower(a) == Prefix(a)[9..] && ToLower(b) == Prefix(b)[9..] by { assert |Ascii("topology.")| == 9; }
  }

  lemma SegmentIsInjective(prefix: Str, a: Str, b: Str)
    ensures Segment(prefix, a) == Segment(prefix, b) ==> a == b
  {
    assert a == Segment(prefix, a)[|prefix| + 1..] && b == Segment(prefix, b)[|prefix| + 1..];
  }

  // ---------- what a pass over the node labels collects, in whatever order the map yields them ----------

  /** An order in which ranging over a map can yield its keys. */
  ghost predicate IsOrder(order: seq<Str>, keys: set<Str>) {
    && (forall k :: k in keys <==> k in order)
    && (forall i, j :: 0 <= i < j < |order| ==> order[i] != order[j])
  }

  /** A later label overwrites an earlier one with the same domain. */
  function Collect(nodeLabels: map<Str, Str>, wanted: set<Str>, order: seq<Str>): map<Str, Str>
    requires forall k :: k in order ==> k in nodeLabels
  {
    if order == [] then map[]
    else
      var key, before := order[|order| - 1], Collect(nodeLabels, wanted, order[..|order| - 1]);
      if key in wanted then before[Domain(key) := nodeLabels[key]] else before
  }

  /** Labels that share a domain have one value. */
  ghost predicate Consistent(nodeLabels: map<Str, Str>, wanted: set<Str>) {
    forall a, b :: a in wanted && b in wanted && a in nodeLabels && b in nodeLabels && Domain(a) == Domain(b)
      ==> nodeLabels[a] == nodeLabels[b]
  }

  /** Every domain collected comes from a wanted label, and holds the value of one. */
  lemma {:induction false} CollectSound(nodeLabels: map<Str, Str>, wanted: set<Str>, order: seq<Str>, d: Str)
    requires forall k :: k in order ==> k in nodeLabels
    ensures d in Collect(nodeLabels, wanted, order) <==> exists k :: k in order && k in wanted && Domain(k) == d
    ensures d in Collect(nodeLabels, wanted, order) ==>
              exists k :: k in order && k in wanted && Domain(k) == d
                          && Collect(nodeLabels, wanted, order)[d] == nodeLabels[k]
  {
    if order != [] {
      var rest, key := order[..|order| - 1], order[|order| - 1];
      assert forall k :: k in order <==> k in rest || k == key;
      CollectSound(nodeLabels, wanted, rest, d);
    }
  }

  lemma CollectConsistent(nodeLabels: map<Str, Str>, wanted: set<Str>, order: seq<Str>, name: Str)
    requires IsOrder(order, nodeLabels.Keys) && Consistent(nodeLabels, wanted)
    requires name in wanted && name in nodeLabels
    ensures Domain(name) in Collect(nodeLabels, wanted, order)
    ensures Collect(nodeLabels, wanted, order)[Domain(name)] == nodeLabels[name]
  {
    CollectSound(nodeLabels, wanted, order, Domain(name));
  }

  lemma SomeOrder(keys: set<Str>) returns (order: seq<Str>)
    ensures IsOrder(order, keys)
    decreases |keys|
  {
    if keys == {} {
      order := [];
    } else {
      var k :| k in keys;
      var rest := SomeOrder(keys - {k});
      order := rest + [k];
    }
  }

  /** The collected map is the same for every order exactly when labels that share a domain have one value. */
  lemma OrderMattersIff(nodeLabels: map<Str, Str>, wanted: set<Str>)
    ensures (forall o1, o2 :: IsOrder(o1, nodeLabels.Keys) && IsOrder(o2, nodeLabels.Keys) ==>
               Collect(nodeLabels, wanted, o1) == Collect(nodeLabels, wanted, o2))
       <==> Consistent(nodeLabels, wanted)
  {
    if Consistent(nodeLabels, wanted) {
      forall o1, o2 | IsOrder(o1, nodeLabels.Keys) && IsOrder(o2, nodeLabels.Keys)
        ensures Collect(nodeLabels, wanted, o1) == Collect(nodeLabels, wanted, o2)
      {
        SameForConsistent(nodeLabels, wanted, o1, o2);
      }
    } else {
      var a, b :| a in wanted && b in wanted && a in nodeLabels && b in nodeLabels
                  && Domain(a) == Domain(b) && nodeLabels[a] != nodeLabels[b];
      var o1, o2 := OrdersDiffer(nodeLabels, wanted, a, b);
    }
  }

  /** Two orders that leave one domain with different values, each with its loser just before its winner. */
  lemma OrdersDiffer(nodeLabels: map<Str, Str>, wanted: set<Str>, a: Str, b: Str) returns (o1: seq<Str>, o2: seq<Str>)
    requires a in wanted && b in wanted && a in nodeLabels && b in nodeLabels
    requires Domain(a) == Domain(b) && nodeLabels[a] != nodeLabels[b]
    ensures IsOrder(o1, nodeLabels.Keys) && IsOrder(o2, nodeLabels.Keys)
    ensures Collect(nodeLabels, wanted, o1) != Collect(nodeLabels, wanted, o2)
  {
    var rest := SomeOrder(nodeLabels.Keys - {a, b});
    o1 := EndsWith(nodeLabels, wanted, rest, a, b);
    o2 := EndsWith(nodeLabels, wanted, rest, b, a);
  }

  lemma EndsWith(nodeLabels: map<Str, Str>, wanted: set<Str>, rest: seq<Str>, a: Str, b: Str) returns (o: seq<Str>)
    requires a in nodeLabels && b in nodeLabels && a != b && b in wanted
    requires IsOrder(rest, nodeLabels.Keys - {a, b})
    ensures IsOrder(o, nodeLabels.Keys)
    ensures Domain(b) in Collect(nodeLabels, wanted, o) && Collect(nodeLabels, wanted, o)[Domain(b)] == nodeLabels[b]
  {
    o := rest + [a, b];
    assert o[|o| - 1] == b && o[|o| - 2] == a;
    forall k ensures k in o <==> k in rest || k == a || k == b {}
    forall i, j | 0 <= i < j < |o| ensures o[i] != o[j] {
      if i < |rest| { assert o[i] in rest; }
    }
  }

  lemma SameForConsistent(nodeLabels: map<Str, Str>, wanted: set<Str>, o1: seq<Str>, o2: seq<Str>)
    requires IsOrder(o1, nodeLabels.Keys) && IsOrder(o2, nodeLabels.Keys) && Consistent(nodeLabels, wanted)
    ensures Collect(nodeLabels, wanted, o1) == Collect(nodeLabels, wanted, o2)
  {
    var m1, m2 := Collect(nodeLabels, wanted, o1), Collect(nodeLabels, wanted, o2);
    forall d ensures d in m1 <==> d in m2 {
      CollectSound(nodeLabels, wanted, o1, d);
      CollectSound(nodeLabels, wanted, o2, d);
    }
    forall d | d in m1 ensures m1[d] == m2[d] {
      CollectSound(nodeLabels, wanted, o1, d);
      var k :| k in o1 && k in wanted && Domain(k) == d;
      CollectConsistent(nodeLabels, wanted, o1, k);
      CollectConsistent(nodeLabels, wanted, o2, k);
    }
  }

  // ---------- GetTopologyFromDomainLabels ----------

  predicate Repeats(labels: seq<Str>, i: nat)
    requires i < |labels|
  {
    labels[i] in labels[..i]
  }

  function SetOf(labels: seq<Str>): set<Str> {
    set l | l in labels
  }

  /** The result: from the labels collected in some order, with the prefix put in front of each domain. */
  ghost predicate TopologyFrom(t: map<Str, Str>, prefix: Str, collected: map<Str, Str>) {
    && (forall d :: d in collected ==> Segment(prefix, d) in t && t[Segment(prefix, d)] == collected[d])
    && (forall k :: k in t ==> exists d :: d in collected && k == Segment(prefix, d))
  }

  /** The first loop: every label is still to be found, unless one of them repeats. */
  method MarkLabels(labelsToRead: seq<Str>) returns (r: Result<map<Str, bool>, TopologyError>)
    ensures match r
            case Ok(labelsIn) =>
              && (forall i :: 0 <= i < |labelsToRead| ==> !Repeats(labelsToRead, i))
              && labelsIn.Keys == SetOf(labelsToRead) && |labelsIn.Keys| == |labelsToRead|
              && forall l :: l in labelsIn ==> labelsIn[l]
            case Err(e) =>
              exists i :: 0 <= i < |labelsToRead| && e == DuplicateLabel(labelsToRead[i]) && Repeats(labelsToRead, i)
                          && forall j :: 0 <= j < i ==> !Repeats(labelsToRead, j)
  {
    var labelsIn: map<Str, bool> := map[];
    for i := 0 to |labelsToRead|
      invariant i == |labelsIn.Keys| && labelsIn.Keys == SetOf(labelsToRead[..i])
      invariant forall l :: l in labelsIn ==> labelsIn[l]
      invariant forall j :: 0 <= j < i ==> !Repeats(labelsToRead, j)
    {
      if labelsToRead[i] in labelsIn { return Err(DuplicateLabel(labelsToRead[i])); }
      assert labelsToRead[..i + 1] == labelsToRead[..i] + [labelsToRead[i]];
      labelsIn := labelsIn[labelsToRead[i] := true];
    }
    assert labelsToRead[..|labelsToRead|] == labelsToRead;
    return Ok(labelsIn);
  }

  /** What the second loop has done once it has visited the keys in order. */
  ghost predicate Visited(nodeLabels: map<Str, Str>, wanted: set<Str>, order: seq<Str>, seen: set<Str>,
                          domainMap: map<Str, Str>, labelsIn: map<Str, bool>, found: nat) {
    && IsOrder(order, seen) && seen <= nodeLabels.Keys
    && domainMap == Collect(nodeLabels, wanted, order)
    && labelsIn.Keys == wanted && (forall l :: l in labelsIn ==> (labelsIn[l] <==> l !in seen))
    && found == |wanted * seen|
  }

  /** The second loop, over the node labels in the order that Go leaves open and :| picks. */
  method CollectDomains(nodeLabels: map<Str, Str>, marked: map<Str, bool>)
    returns (domainMap: map<Str, Str>, labelsIn: map<Str, bool>, found: nat, ghost order: seq<Str>)
    requires forall l :: l in marked ==> marked[l]
    ensures Visited(nodeLabels, marked.Keys, order, nodeLabels.Keys, domainMap, labelsIn, found)
    ensures labelsIn.Keys == marked.Keys && forall l :: l in labelsIn ==> (labelsIn[l] <==> l !in nodeLabels)
    ensures found == |marked.Keys * nodeLabels.Keys|
  {
    hide *;
    domainMap, labelsIn, found, order := map[], marked, 0, [];
    ghost var wanted, seen: set<Str> := marked.Keys, {};
    NoneVisited(nodeLabels, marked);
    var remaining := nodeLabels.Keys;
    while remaining != {}
      invariant remaining == nodeLabels.Keys - seen && seen <= nodeLabels.Keys
      invariant Visited(nodeLabels, wanted, order, seen, domainMap, labelsIn, found)
      decreases remaining
    {
      var key :| key in remaining;
      domainMap, labelsIn, found := Visit(nodeLabels, wanted, order, seen, domainMap, labelsIn, found, key);
      remaining, seen, order := remaining - {key}, seen + {key}, order + [key];
    }
    assert seen == nodeLabels.Keys;
    AllVisited(nodeLabels, wanted, order, domainMap, labelsIn, found);
  }

  lemma NoneVisited(nodeLabels: map<Str, Str>, marked: map<Str, bool>)
    requires forall l :: l in marked ==> marked[l]
    ensures Visited(nodeLabels, marked.Keys, [], {}, map[], marked, 0)
  {
    assert marked.Keys * {} == {};
  }

  lemma AllVisited(nodeLabels: map<Str, Str>, wanted: set<Str>, order: seq<Str>,
                   domainMap: map<Str, Str>, labelsIn: map<Str, bool>, found: nat)
    requires Visited(nodeLabels, wanted, order, nodeLabels.Keys, domainMap, labelsIn, found)
    ensures labelsIn.Keys == wanted && forall l :: l in labelsIn ==> (labelsIn[l] <==> l !in nodeLabels)
    ensures found == |wanted * nodeLabels.Keys|
  {
  }

  /** One turn of the second loop. */
  method Visit(nodeLabels: map<Str, Str>, ghost wanted: set<Str>, ghost order: seq<Str>, ghost seen: set<Str>,
               domainMap: map<Str, Str>, labelsIn: map<Str, bool>, found: nat, key: Str)
    returns (domains: map<Str, Str>, labels: map<Str, bool>, count: nat)
    requires key in nodeLabels && key !in seen
    requires Visited(nodeLabels, wanted, order, seen, domainMap, labelsIn, found)
    ensures Visited(nodeLabels, wanted, order + [key], seen + {key}, domains, labels, count)
  {
    hide IsOrder, Collect, Domain;
    OrderGrows(order, seen, key);
    CollectGrows(nodeLabels, wanted, order, key);
    CountOneMore(wanted, seen, key);
    if key !in labelsIn { return domainMap, labelsIn, found; }
    return domainMap[Domain(key) := nodeLabels[key]], labelsIn[key := false], found + 1;
  }

  lemma OrderGrows(order: seq<Str>, seen: set<Str>, key: Str)
    requires IsOrder(order, seen) && key !in seen
    ensures IsOrder(order + [key], seen + {key})
    ensures forall k :: k in order <==> k in seen
  {
  }

  lemma CollectGrows(nodeLabels: map<Str, Str>, wanted: set<Str>, order: seq<Str>, key: Str)
    requires key in nodeLabels && forall k :: k in order ==> k in nodeLabels
    ensures Collect(nodeLabels, wanted, order + [key])
         == var before := Collect(nodeLabels, wanted, order);
            if key in wanted then before[Domain(key) := nodeLabels[key]] else before
  {
    assert (order + [key])[..|order|] == order;
  }

  lemma CountOneMore(wanted: set<Str>, seen: set<Str>, key: Str)
    requires key !in seen
    ensures |wanted * (seen + {key})| == |wanted * seen| + if key in wanted then 1 else 0
  {
    assert wanted * (seen + {key}) == wanted * seen + if key in wanted then {key} else {};
  }

  /** The last loop, again in any order. */
  method PutPrefix(prefix: Str, domainMap: map<Str, Str>) returns (topology: map<Str, Str>)
    ensures TopologyFrom(topology, prefix, domainMap)
  {
    topology := map[];
    var domains := domainMap.Keys;
    while domains != {}
      invariant domains <= domainMap.Keys
      invariant forall d :: d in domainMap.Keys - domains ==>
                  Segment(prefix, d) in topology && topology[Segment(prefix, d)] == domainMap[d]
      invariant forall k :: k in topology ==> exists d :: d in domainMap && k == Segment(prefix, d)
      decreases domains
    {
      var domain :| domain in domains;
      domains := domains - {domain};
      forall d ensures Segment(prefix, d) == Segment(prefix, domain) ==> d == domain {
        SegmentIsInjective(prefix, d, domain);
      }
      topology := topology[Segment(prefix, domain) := domainMap[domain]];
    }
  }

  /** For every order in which Go may range over the maps. */
  method GetTopologyFromDomainLabels(nodeLabels: map<Str, Str>, labelsToRead: seq<Str>, driverName: Str)
    returns (r: Result<map<Str, Str>, TopologyError>, ghost order: seq<Str>)
    ensures labelsToRead == [] ==> r == Ok(map[])
    ensures labelsToRead != [] && |Prefix(driverName)| > LEN_LIMIT ==> r == Err(PrefixTooLong(Prefix(driverName)))
    ensures labelsToRead != [] && |Prefix(driverName)| <= LEN_LIMIT ==>
              match r
              case Err(PrefixTooLong(_)) => false
              case Err(DuplicateLabel(name)) =>
                exists i :: 0 <= i < |labelsToRead| && name == labelsToRead[i] && Repeats(labelsToRead, i)
                            && forall j :: 0 <= j < i ==> !Repeats(labelsToRead, j)
              case Err(MissingLabels(missing)) =>
                && (forall i :: 0 <= i < |labelsToRead| ==> !Repeats(labelsToRead, i))
                && missing == SetOf(labelsToRead) - nodeLabels.Keys && missing != {}
              case Ok(t) =>
                && (forall i :: 0 <= i < |labelsToRead| ==> !Repeats(labelsToRead, i))
                && SetOf(labelsToRead) <= nodeLabels.Keys
                && IsOrder(order, nodeLabels.Keys)
                && TopologyFrom(t, Prefix(driverName), Collect(nodeLabels, SetOf(labelsToRead), order))
  {
    order := [];
    if labelsToRead == [] { return Ok(map[]), order; }
    var topologyPrefix := Prefix(driverName);
    if |topologyPrefix| > LEN_LIMIT { return Err(PrefixTooLong(topologyPrefix)), order; }

    var marked := MarkLabels(labelsToRead);
    if marked.Err? { return Err(marked.error), order; }
    ghost var wanted := SetOf(labelsToRead);

    var domainMap, labelsIn, found;
    domainMap, labelsIn, found, order := CollectDomains(nodeLabels, marked.value);
    FoundAll(wanted, nodeLabels.Keys);
    if found != |labelsToRead| {
      var missing := set l | l in labelsIn && labelsIn[l];
      assert missing == wanted - nodeLabels.Keys;
      return Err(MissingLabels(missing)), order;
    }
    var topology := PutPrefix(topologyPrefix, domainMap);
    return Ok(topology), order;
  }

  /** All wanted keys are present exactly when as many are found as are wanted. */
  lemma FoundAll(wanted: set<Str>, keys: set<Str>)
    ensures |wanted * keys| == |wanted| <==> wanted <= keys
    ensures wanted - keys == {} <==> wanted <= keys
  {
    assert wanted == wanted * keys + (wanted - keys);
    assert |wanted| == |wanted * keys| + |wanted - keys|;
  }

  /** With distinct domains every order gives one segment for each label, with that label's value. */
  lemma DistinctDomainsGiveEachLabel(nodeLabels: map<Str, Str>, labels: seq<Str>, prefix: Str, order: seq<Str>,
                                     t: map<Str, Str>)
    requires IsOrder(order, nodeLabels.Keys) && SetOf(labels) <= nodeLabels.Keys
    requires forall i, j :: 0 <= i < j < |labels| ==> Domain(labels[i]) != Domain(labels[j])
    requires TopologyFrom(t, prefix, Collect(nodeLabels, SetOf(labels), order))
    ensures forall i :: 0 <= i < |labels| ==>
              Segment(prefix, Domain(labels[i])) in t && t[Segment(prefix, Domain(labels[i]))] == nodeLabels[labels[i]]
    ensures forall k :: k in t ==> exists i :: 0 <= i < |labels| && k == Segment(prefix, Domain(labels[i]))
    ensures forall i, j :: 0 <= i < j < |labels| ==> Segment(prefix, Domain(labels[i])) != Segment(prefix, Domain(labels[j]))
  {
    var wanted := SetOf(labels);
    assert Consistent(nodeLabels, wanted);
    var collected := Collect(nodeLabels, wanted, order);
    forall i | 0 <= i < |labels|
      ensures Segment(prefix, Domain(labels[i])) in t && t[Segment(prefix, Domain(labels[i]))] == nodeLabels[labels[i]]
    {
      CollectConsistent(nodeLabels, wanted, order, labels[i]);
    }
    forall k | k in t ensures exists i :: 0 <= i < |labels| && k == Segment(prefix, Domain(labels[i])) {
      var d :| d in collected && k == Segment(prefix, d);
      CollectSound(nodeLabels, wanted, order, d);
      var l :| l in order && l in wanted && Domain(l) == d;
      var i :| 0 <= i < |labels| && labels[i] == l;
    }
    forall i, j | 0 <= i < j < |labels|
      ensures Segment(prefix, Domain(labels[i])) != Segment(prefix, Domain(labels[j]))
    {
      SegmentIsInjective(prefix, Domain(labels[i]), Domain(labels[j]));
    }
  }

  // ---------- GetTopologyFromParams ----------

  /** The last of some topologies that has a label. */
  predicate IsLastWith(topologies: seq<map<Str, Str>>, name: Str, i: nat) {
    i < |topologies| && name in topologies[i] && forall j :: i < j < |topologies| ==> name !in topologies[j]
  }

  /** Each requested label that some topology has, with the value of the last that has it, and no other. */
  ghost predicate TopologyOf(m: map<Str, Str>, labels: set<Str>, topologies: seq<map<Str, Str>>) {
    && (forall l :: l in m <==> l in labels && exists i :: 0 <= i < |topologies| && l in topologies[i])
    && (forall l, i: nat :: l in labels && IsLastWith(topologies, l, i) ==> l in m && m[l] == topologies[i][l])
  }

  /** One more topology overwrites what those before it said. */
  lemma OneMoreTopology(before: map<Str, Str>, after: map<Str, Str>, labels: set<Str>, topologies: seq<map<Str, Str>>,
                        last: map<Str, Str>)
    requires TopologyOf(before, labels, topologies)
    requires forall l :: l in after <==> l in before || (l in labels && l in last)
    requires forall l :: l in after ==> after[l] == if l in labels && l in last then last[l] else before[l]
    ensures TopologyOf(after, labels, topologies + [last])
  {
    var all := topologies + [last];
    forall l ensures l in after <==> l in labels && exists i :: 0 <= i < |all| && l in all[i] {
      if l in labels && l in last { assert l in all[|topologies|]; }
      if l in before {
        var i :| 0 <= i < |topologies| && l in topologies[i];
        assert l in all[i];
      }
    }
    forall l, i: nat | l in labels && IsLastWith(all, l, i) ensures l in after && after[l] == all[i][l] {
      if l in last {
        assert l in all[|topologies|];
      } else {
        assert forall j :: 0 <= j < |topologies| ==> topologies[j] == all[j];
        assert IsLastWith(topologies, l, i);
      }
    }
  }

  method GetTopology(domainLabel: seq<Str>, csiTopology: seq<map<Str, Str>>) returns (r: Option<map<Str, Str>>)
    ensures match r
            case Some(m) => m != map[] && TopologyOf(m, SetOf(domainLabel), csiTopology)
            case None => forall i, l :: 0 <= i < |csiTopology| && l in domainLabel ==> l !in csiTopology[i]
  {
    var topologyMap: map<Str, Str> := map[];
    for i := 0 to |csiTopology|
      invariant TopologyOf(topologyMap, SetOf(domainLabel), csiTopology[..i])
    {
      ghost var before := topologyMap;
      var topology := csiTopology[i];
      for j := 0 to |domainLabel|
        invariant forall l :: l in topologyMap <==> l in before || (l in domainLabel[..j] && l in topology)
        invariant forall l :: l in topologyMap ==>
                    topologyMap[l] == if l in domainLabel[..j] && l in topology then topology[l] else before[l]
      {
        var name := domainLabel[j];
        assert domainLabel[..j + 1] == domainLabel[..j] + [name];
        if name in topology {
          topologyMap := topologyMap[name := topology[name]];
        }
      }
      assert domainLabel[..|domainLabel|] == domainLabel && csiTopology[..i + 1] == csiTopology[..i] + [topology];
      OneMoreTopology(before, topologyMap, SetOf(domainLabel), csiTopology[..i], topology);
    }
    assert csiTopology[..|csiTopology|] == csiTopology;
    forall i, l | 0 <= i < |csiTopology| && l in domainLabel && l in csiTopology[i] ensures l in topologyMap {
      assert l in SetOf(domainLabel);
    }
    return if topologyMap != map[] then Some(topologyMap) else None;
  }

  datatype Requirement = Requirement(preferred: seq<map<Str, Str>>, requisite: seq<map<Str, Str>>)

  /** The preferred topologies decide as soon as one of them has a requested label. */
  method GetTopologyFromParams(params: map<Str, Str>, requirement: Option<Requirement>) returns (r: Option<map<Str, Str>>)
    ensures DOMAIN_LABELS !in params || requirement.None? ==> r == None
    ensures DOMAIN_LABELS in params && requirement.Some? ==>
              var labels := SetOf(Split(params[DOMAIN_LABELS], COMMA));
              var preferred, requisite := requirement.value.preferred, requirement.value.requisite;
              var decide := if Speaks(preferred, labels) then preferred else requisite;
              && (r.Some? <==> Speaks(decide, labels))
              && (r.Some? ==> TopologyOf(r.value, labels, decide))
  {
    if DOMAIN_LABELS !in params { return None; }
    var labels := Split(params[DOMAIN_LABELS], COMMA);
    if requirement.None? { return None; }
    var preferred := GetTopology(labels, requirement.value.preferred);
    if preferred.Some? {
      SpeaksIff(preferred.value, SetOf(labels), requirement.value.preferred);
      return preferred;
    }
    var requisite := GetTopology(labels, requirement.value.requisite);
    if requisite.Some? { SpeaksIff(requisite.value, SetOf(labels), requirement.value.requisite); }
    return requisite;
  }

  /** Some topology has a requested label. */
  ghost predicate Speaks(topologies: seq<map<Str, Str>>, labels: set<Str>) {
    exists i, l :: 0 <= i < |topologies| && l in labels && l in topologies[i]
  }

  lemma SpeaksIff(m: map<Str, Str>, labels: set<Str>, topologies: seq<map<Str, Str>>)
    requires TopologyOf(m, labels, topologies) && m != map[]
    ensures Speaks(topologies, labels)
  {
    var l :| l in m;
    var i :| 0 <= i < |topologies| && l in topologies[i];
  }
}
