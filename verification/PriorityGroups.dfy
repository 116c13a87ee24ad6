/**
 The networks of a configuration grouped by priority (`wpa_supplicant/config.c`): `pssid` holds the
 first network of each priority, highest first, and `pnext` chains those of equal priority.
 */
module PriorityGroups {
  import opened Sequences

  datatype Net = Net(id: int, priority: int)

  // ---- the groups as values ----

  /** First group of the priority, or the number of groups. */
  function GroupOf(groups: seq<seq<Net>>, priority: int): (i: nat)
    requires forall g :: 0 <= g < |groups| ==> groups[g] != []
    ensures i <= |groups| && (i < |groups| ==> groups[i][0].priority == priority)
    ensures forall g :: 0 <= g < i ==> groups[g][0].priority != priority
  {
    if groups == [] || groups[0][0].priority == priority then 0 else 1 + GroupOf(groups[1..], priority)
  }

  /** First group of a lower priority, or the number of groups. */
  function PlaceFor(groups: seq<seq<Net>>, priority: int): (i: nat)
    requires forall g :: 0 <= g < |groups| ==> groups[g] != []
    ensures i <= |groups| && (i < |groups| ==> groups[i][0].priority < priority)
    ensures forall g :: 0 <= g < i ==> groups[g][0].priority >= priority
  {
    if groups == [] || groups[0][0].priority < priority then 0 else 1 + PlaceFor(groups[1..], priority)
  }

  /** `wpa_config_add_prio_network` */
  function AddPrio(groups: seq<seq<Net>>, n: Net): (r: seq<seq<Net>>)
    requires forall g :: 0 <= g < |groups| ==> groups[g] != []
    ensures forall g :: 0 <= g < |r| ==> r[g] != []
  {
    var i := GroupOf(groups, n.priority);
    if i < |groups| then groups[i := groups[i] + [n]]
    else
      var j := PlaceFor(groups, n.priority);
      Insert(groups, j, [n])
  }

  /** `wpa_config_update_prio_list` */
  function Groups(nets: seq<Net>): (r: seq<seq<Net>>)
    ensures forall g :: 0 <= g < |r| ==> r[g] != []
  {
    if nets == [] then [] else AddPrio(Groups(nets[..|nets| - 1]), nets[|nets| - 1])
  }

  function Flatten(groups: seq<seq<Net>>): seq<Net> {
    if groups == [] then [] else Flatten(groups[..|groups| - 1]) + groups[|groups| - 1]
  }

  /** The networks of one priority, in order. */
  function Only(nets: seq<Net>, priority: int): seq<Net> {
    if nets == [] then []
    else
      var before, last := Only(nets[..|nets| - 1], priority), nets[|nets| - 1];
      if last.priority == priority then before + [last] else before
  }

  ghost predicate Descending(nets: seq<Net>) {
    forall i, j :: 0 <= i < j < |nets| ==> nets[i].priority >= nets[j].priority
  }

  ghost predicate Alike(group: seq<Net>) {
    group != [] && forall k :: 0 <= k < |group| ==> group[k].priority == group[0].priority
  }

  /** Priorities strictly decrease from group to group and are equal within one. */
  ghost predicate WellGrouped(groups: seq<seq<Net>>) {
    (forall g :: 0 <= g < |groups| ==> Alike(groups[g])) &&
    (forall g, h :: 0 <= g < h < |groups| ==> groups[g][0].priority > groups[h][0].priority)
  }

  // ---- groups are in order ----

  lemma {:induction false} AppendGroup(groups: seq<seq<Net>>, i: nat, n: Net)
    requires WellGrouped(groups) && i < |groups| && groups[i][0].priority == n.priority
    ensures WellGrouped(groups[i := groups[i] + [n]])
  {
    assert Alike(groups[i]);
    assert Alike(groups[i] + [n]) && (groups[i] + [n])[0] == groups[i][0];
  }

  lemma {:induction false} InsertGroup(groups: seq<seq<Net>>, j: nat, n: Net)
    requires WellGrouped(groups) && j <= |groups|
    requires forall g :: 0 <= g < j ==> groups[g][0].priority > n.priority
    requires forall g :: j <= g < |groups| ==> groups[g][0].priority < n.priority
    ensures WellGrouped(Insert(groups, j, [n]))
  {
    assert Alike([n]);
  }

  lemma {:induction false} AddPrioGroups(groups: seq<seq<Net>>, n: Net)
    requires WellGrouped(groups)
    ensures WellGrouped(AddPrio(groups, n))
  {
    var i, j := GroupOf(groups, n.priority), PlaceFor(groups, n.priority);
    if i < |groups| {
      AppendGroup(groups, i, n);
    } else {
      InsertGroup(groups, j, n);
    }
  }

  /** The priority groups of any network list are strictly decreasing in priority. */
  lemma {:induction false} GroupsWellGrouped(nets: seq<Net>)
    ensures WellGrouped(Groups(nets))
  {
    if nets != [] {
      GroupsWellGrouped(nets[..|nets| - 1]);
      AddPrioGroups(Groups(nets[..|nets| - 1]), nets[|nets| - 1]);
    }
  }

  // ---- their concatenation is the stable sort ----

  lemma {:induction false} OnlySplits(a: seq<Net>, b: seq<Net>, priority: int)
    ensures Only(a + b, priority) == Only(a, priority) + Only(b, priority)
  {
    if b == [] {
      assert a + b == a;
    } else {
      assert (a + b)[..|a + b| - 1] == a + b[..|b| - 1];
      OnlySplits(a, b[..|b| - 1], priority);
    }
  }

  lemma {:induction false} OnlyNone(nets: seq<Net>, priority: int)
    requires forall k :: 0 <= k < |nets| ==> nets[k].priority != priority
    ensures Only(nets, priority) == []
  {
    if nets != [] {
      OnlyNone(nets[..|nets| - 1], priority);
    }
  }

  lemma {:induction false} OnlyAll(nets: seq<Net>, priority: int)
    requires forall k :: 0 <= k < |nets| ==> nets[k].priority == priority
    ensures Only(nets, priority) == nets
  {
    if nets != [] {
      OnlyAll(nets[..|nets| - 1], priority);
    }
  }

  function GroupAt(groups: seq<seq<Net>>, priority: int): seq<Net>
    requires forall g :: 0 <= g < |groups| ==> groups[g] != []
  {
    var i := GroupOf(groups, priority);
    if i < |groups| then groups[i] else []
  }

  lemma {:induction false} GroupIs(groups: seq<seq<Net>>, i: nat)
    requires WellGrouped(groups) && i < |groups|
    ensures GroupAt(groups, groups[i][0].priority) == groups[i]
  {
    var k := GroupOf(groups, groups[i][0].priority);
    assert k == i;
  }

  lemma {:induction false} NoGroup(groups: seq<seq<Net>>, priority: int)
    requires WellGrouped(groups) && forall g :: 0 <= g < |groups| ==> groups[g][0].priority != priority
    ensures GroupAt(groups, priority) == []
  {
  }

  lemma {:induction false} OnlyOfGroup(nets: seq<Net>, group: seq<Net>, priority: int)
    requires Alike(group)
    ensures Only(nets + group, priority) ==
            if group[0].priority == priority then Only(nets, priority) + group else Only(nets, priority)
  {
    OnlySplits(nets, group, priority);
    if group[0].priority == priority {
      OnlyAll(group, priority);
    } else {
      OnlyNone(group, priority);
    }
  }

  lemma {:induction false} LastGroup(groups: seq<seq<Net>>, priority: int)
    requires WellGrouped(groups) && groups != []
    ensures var front, last := groups[..|groups| - 1], groups[|groups| - 1];
            if last[0].priority == priority then GroupAt(groups, priority) == last && GroupAt(front, priority) == []
            else GroupAt(groups, priority) == GroupAt(front, priority)
  {
    var front, last := groups[..|groups| - 1], groups[|groups| - 1];
    var k := GroupOf(front, priority);
    if last[0].priority == priority {
      GroupIs(groups, |groups| - 1);
      NoGroup(front, priority);
    } else if k < |front| {
      GroupIs(groups, k);
    } else {
      NoGroup(groups, priority);
    }
  }

  /** A priority's networks are its group. */
  lemma {:induction false} OnlyOfGroups(groups: seq<seq<Net>>, priority: int)
    requires WellGrouped(groups)
    ensures Only(Flatten(groups), priority) == GroupAt(groups, priority)
  {
    if groups != [] {
      var front, last := groups[..|groups| - 1], groups[|groups| - 1];
      OnlyOfGroups(front, priority);
      assert Alike(last);
      OnlyOfGroup(Flatten(front), last, priority);
      LastGroup(groups, priority);
    }
  }

  lemma {:induction false} AppendGroupAt(groups: seq<seq<Net>>, n: Net, priority: int)
    requires WellGrouped(groups) && GroupOf(groups, n.priority) < |groups|
    ensures GroupAt(AddPrio(groups, n), priority) ==
            if priority == n.priority then GroupAt(groups, priority) + [n] else GroupAt(groups, priority)
  {
    AddPrioGroups(groups, n);
    var r: seq<seq<Net>> := AddPrio(groups, n);
    var k := GroupOf(groups, priority);
    if k < |groups| {
      assert r[k][0].priority == priority;
      GroupIs(r, k);
    } else {
      NoGroup(r, priority);
    }
  }

  lemma {:induction false} InsertedGroup(groups: seq<seq<Net>>, j: nat, n: Net, priority: int)
    requires WellGrouped(groups) && j <= |groups| && WellGrouped(Insert(groups, j, [n])) && priority != n.priority
    ensures GroupAt(Insert(groups, j, [n]), priority) == GroupAt(groups, priority)
  {
    var r, k := Insert(groups, j, [n]), GroupOf(groups, priority);
    if k < |groups| {
      GroupIs(r, if k < j then k else k + 1);
    } else {
      NoGroup(r, priority);
    }
  }

  lemma {:induction false} InsertGroupAt(groups: seq<seq<Net>>, n: Net, priority: int)
    requires WellGrouped(groups) && GroupOf(groups, n.priority) == |groups|
    ensures GroupAt(AddPrio(groups, n), priority) ==
            if priority == n.priority then GroupAt(groups, priority) + [n] else GroupAt(groups, priority)
  {
    assert WellGrouped(AddPrio(groups, n)) by { AddPrioGroups(groups, n); }
    var j := PlaceFor(groups, n.priority);
    if priority == n.priority {
      GroupIs(Insert(groups, j, [n]), j);
    } else {
      InsertedGroup(groups, j, n, priority);
    }
  }

  /** For every priority, its networks are found in the concatenation in their configured order. */
  lemma {:induction false} GroupsKeepOrder(nets: seq<Net>, priority: int)
    ensures Only(Flatten(Groups(nets)), priority) == Only(nets, priority)
  {
    if nets != [] {
      var front, n := nets[..|nets| - 1], nets[|nets| - 1];
      var groups := Groups(front);
      GroupsKeepOrder(front, priority);
      GroupsWellGrouped(front);
      AddPrioGroups(groups, n);
      OnlyOfGroups(groups, priority);
      OnlyOfGroups(AddPrio(groups, n), priority);
      if GroupOf(groups, n.priority) < |groups| {
        AppendGroupAt(groups, n, priority);
      } else {
        InsertGroupAt(groups, n, priority);
      }
    }
  }

  lemma {:induction false} FlattenAbove(groups: seq<seq<Net>>, bound: int)
    requires forall g, k :: 0 <= g < |groups| && 0 <= k < |groups[g]| ==> groups[g][k].priority >= bound
    ensures forall i :: 0 <= i < |Flatten(groups)| ==> Flatten(groups)[i].priority >= bound
  {
    if groups != [] {
      FlattenAbove(groups[..|groups| - 1], bound);
    }
  }

  lemma {:induction false} FlattenDescends(groups: seq<seq<Net>>)
    requires WellGrouped(groups)
    ensures Descending(Flatten(groups))
  {
    if groups != [] {
      var front, last := groups[..|groups| - 1], groups[|groups| - 1];
      FlattenDescends(front);
      forall g, k | 0 <= g < |front| && 0 <= k < |front[g]| ensures front[g][k].priority >= last[0].priority {
        assert Alike(groups[g]);
      }
      FlattenAbove(front, last[0].priority);
      assert Alike(last);
    }
  }

  // ---- there is only one such order ----

  lemma {:induction false} OnlyHas(nets: seq<Net>, i: nat)
    requires i < |nets|
    ensures Only(nets, nets[i].priority) != []
  {
    if i < |nets| - 1 {
      OnlyHas(nets[..|nets| - 1], i);
    }
  }

  lemma {:induction false} OnlyFrom(nets: seq<Net>, priority: int) returns (i: nat)
    requires Only(nets, priority) != []
    ensures i < |nets| && nets[i].priority == priority
  {
    if nets[|nets| - 1].priority == priority {
      i := |nets| - 1;
    } else {
      i := OnlyFrom(nets[..|nets| - 1], priority);
    }
  }

  /** The same networks in the same order, priority by priority. */
  ghost predicate SameOrder(s: seq<Net>, t: seq<Net>) {
    forall p :: Only(s, p) == Only(t, p)
  }

  lemma {:induction false} LastNotAbove(s: seq<Net>, t: seq<Net>)
    requires s != [] && t != [] && Descending(t) && Only(s, s[|s| - 1].priority) == Only(t, s[|s| - 1].priority)
    ensures t[|t| - 1].priority <= s[|s| - 1].priority
  {
    OnlyHas(s, |s| - 1);
    var i := OnlyFrom(t, s[|s| - 1].priority);
  }

  lemma {:induction false} OnlyEnds(s: seq<Net>)
    requires s != []
    ensures var o := Only(s, s[|s| - 1].priority); o != [] && o[|o| - 1] == s[|s| - 1]
  {
  }

  lemma {:induction false} LastAlike(s: seq<Net>, t: seq<Net>)
    requires s != [] && t != [] && Descending(s) && Descending(t) && SameOrder(s, t)
    ensures s[|s| - 1] == t[|t| - 1]
  {
    assert Only(s, s[|s| - 1].priority) == Only(t, s[|s| - 1].priority);
    assert Only(s, t[|t| - 1].priority) == Only(t, t[|t| - 1].priority);
    LastNotAbove(s, t);
    LastNotAbove(t, s);
    OnlyEnds(s);
    OnlyEnds(t);
  }

  lemma {:induction false} FrontAlike(s: seq<Net>, t: seq<Net>)
    requires s != [] && t != [] && s[|s| - 1] == t[|t| - 1] && SameOrder(s, t)
    ensures SameOrder(s[..|s| - 1], t[..|t| - 1])
  {
    var a, b := s[..|s| - 1], t[..|t| - 1];
    forall p ensures Only(a, p) == Only(b, p) {
      assert Only(s, p) == Only(t, p);
      if s[|s| - 1].priority == p {
        assert Only(s, p)[..|Only(a, p)|] == Only(a, p);
        assert Only(t, p)[..|Only(b, p)|] == Only(b, p);
      }
    }
  }

  /** A list with a given order within each priority and decreasing priorities is unique. */
  lemma {:induction false} StableSortUnique(s: seq<Net>, t: seq<Net>)
    requires Descending(s) && Descending(t) && SameOrder(s, t)
    ensures s == t
  {
    if s == [] {
      if t != [] { OnlyHas(t, 0); }
    } else if t == [] {
      OnlyHas(s, 0);
    } else {
      LastAlike(s, t);
      FrontAlike(s, t);
      StableSortUnique(s[..|s| - 1], t[..|t| - 1]);
      assert s == s[..|s| - 1] + [s[|s| - 1]] && t == t[..|t| - 1] + [t[|t| - 1]];
    }
  }

  /** The concatenated groups are the stable sort of the networks by decreasing priority, and nothing else is. */
  lemma {:induction false} GroupsAreStableSort(nets: seq<Net>, t: seq<Net>)
    ensures t == Flatten(Groups(nets)) <==> Descending(t) && SameOrder(t, nets)
  {
    var s := Flatten(Groups(nets));
    assert Descending(s) by {
      GroupsWellGrouped(nets);
      FlattenDescends(Groups(nets));
    }
    forall p ensures Only(s, p) == Only(nets, p) { GroupsKeepOrder(nets, p); }
    if Descending(t) && SameOrder(t, nets) {
      forall p ensures Only(s, p) == Only(t, p) { assert Only(t, p) == Only(nets, p); }
      StableSortUnique(s, t);
    }
  }

  lemma {:induction false} CountOnly(nets: seq<Net>, n: Net)
    ensures multiset(nets)[n] == multiset(Only(nets, n.priority))[n]
  {
    if nets != [] {
      CountOnly(nets[..|nets| - 1], n);
      assert nets == nets[..|nets| - 1] + [nets[|nets| - 1]];
    }
  }

  /** Every network is in exactly one place of one group. */
  lemma {:induction false} GroupsPermute(nets: seq<Net>)
    ensures multiset(Flatten(Groups(nets))) == multiset(nets)
  {
    var s := Flatten(Groups(nets));
    forall n: Net ensures multiset(s)[n] == multiset(nets)[n] {
      GroupsKeepOrder(nets, n.priority);
      CountOnly(s, n);
      CountOnly(nets, n);
    }
  }

  // ---- additions, removals and priority changes ----

  ghost predicate Increasing(nets: seq<Net>) {
    forall i, j :: 0 <= i < j < |nets| ==> nets[i].id < nets[j].id
  }

  /** The highest id, -1 if there is no network. */
  function MaxId(nets: seq<Net>): (m: int)
    ensures forall i :: 0 <= i < |nets| ==> nets[i].id <= m
    ensures m >= -1
  {
    if nets == [] then -1
    else
      var before, last := MaxId(nets[..|nets| - 1]), nets[|nets| - 1];
      if last.id > before then last.id else before
  }

  function IndexOfId(nets: seq<Net>, id: int): (i: nat)
    ensures i <= |nets| && (i < |nets| ==> nets[i].id == id)
    ensures forall k :: 0 <= k < i ==> nets[k].id != id
  {
    if nets == [] || nets[0].id == id then 0 else 1 + IndexOfId(nets[1..], id)
  }

  datatype Op = Add | Remove(id: int) | SetPriority(id: int, priority: int)

  /** What an operation does to the network list; new networks have priority 0. */
  function Apply(nets: seq<Net>, op: Op): seq<Net> {
    match op
    case Add => nets + [Net(MaxId(nets) + 1, 0)]
    case Remove(id) => var i := IndexOfId(nets, id); if i < |nets| then Cut(nets, i) else nets
    case SetPriority(id, priority) =>
      var i := IndexOfId(nets, id);
      if i < |nets| then nets[i := nets[i].(priority := priority)] else nets
  }

  function Run(ops: seq<Op>): seq<Net> {
    if ops == [] then [] else Apply(Run(ops[..|ops| - 1]), ops[|ops| - 1])
  }

  lemma {:induction false} ApplyIncreasing(nets: seq<Net>, op: Op)
    requires Increasing(nets) && forall i :: 0 <= i < |nets| ==> nets[i].id >= 0
    ensures Increasing(Apply(nets, op)) && forall i :: 0 <= i < |Apply(nets, op)| ==> Apply(nets, op)[i].id >= 0
  {
  }

  /** Over any run the ids are distinct: they increase along the list. */
  lemma {:induction false} RunIncreasing(ops: seq<Op>)
    ensures Increasing(Run(ops)) && forall i :: 0 <= i < |Run(ops)| ==> Run(ops)[i].id >= 0
  {
    if ops != [] {
      RunIncreasing(ops[..|ops| - 1]);
      ApplyIncreasing(Run(ops[..|ops| - 1]), ops[|ops| - 1]);
    }
  }

  /** Only the networks with another id are left. */
  ghost predicate Removed(before: seq<Net>, after: seq<Net>, id: int) {
    Increasing(after) && forall n :: n in after <==> n in before && n.id != id
  }

  /** Every network is where it was, and only the one with the id has another priority. */
  ghost predicate Reprioritised(before: seq<Net>, after: seq<Net>, id: int, priority: int) {
    |after| == |before| && forall i :: 0 <= i < |before| ==>
      after[i] == Net(before[i].id, if before[i].id == id then priority else before[i].priority)
  }

  /** One network of priority 0 at the end, under the first id above all others. */
  ghost predicate Appended(before: seq<Net>, after: seq<Net>) {
    |after| == |before| + 1 && before <= after && after[|before|].priority == 0 &&
    (forall i :: 0 <= i < |before| ==> before[i].id < after[|before|].id) &&
    (before == [] ==> after[0].id == 0) && (before != [] ==> after[|before|].id == before[|before| - 1].id + 1)
  }

  lemma {:induction false} RemoveIff(nets: seq<Net>, id: int)
    requires Increasing(nets)
    ensures Removed(nets, Apply(nets, Remove(id)), id)
  {
    var i, after := IndexOfId(nets, id), Apply(nets, Remove(id));
    if i < |nets| {
      forall n | n in nets && n.id != id ensures n in after {
        var j :| 0 <= j < |nets| && nets[j] == n;
        assert after[if j < i then j else j - 1] == n;
      }
      forall n | n in after ensures n in nets && n.id != id {
        var j :| 0 <= j < |after| && after[j] == n;
        assert nets[if j < i then j else j + 1] == n;
      }
    }
  }

  lemma {:induction false} SetPriorityIs(nets: seq<Net>, id: int, priority: int)
    requires Increasing(nets)
    ensures Reprioritised(nets, Apply(nets, SetPriority(id, priority)), id, priority)
  {
  }

  lemma {:induction false} AddAppends(nets: seq<Net>)
    requires Increasing(nets) && forall i :: 0 <= i < |nets| ==> nets[i].id >= 0
    ensures Appended(nets, Apply(nets, Add))
  {
    if nets != [] {
      var front := nets[..|nets| - 1];
      MaxIsSome(front);
    }
  }

  lemma {:induction false} MaxIsSome(nets: seq<Net>)
    ensures MaxId(nets) == -1 || exists i :: 0 <= i < |nets| && nets[i].id == MaxId(nets)
  {
    if nets != [] {
      var front := nets[..|nets| - 1];
      MaxIsSome(front);
      assert forall i :: 0 <= i < |front| ==> front[i] == nets[i];
    }
  }

  /** What each operation does to the networks after any run. */
  lemma {:induction false} RunOps(ops: seq<Op>, op: Op)
    ensures var before, after := Run(ops), Run(ops + [op]);
            match op
            case Add => Appended(before, after)
            case Remove(id) => Removed(before, after, id)
            case SetPriority(id, priority) => Reprioritised(before, after, id, priority)
  {
    assert (ops + [op])[..|ops|] == ops;
    RunIncreasing(ops);
    match op {
      case Add => AddAppends(Run(ops));
      case Remove(id) => RemoveIff(Run(ops), id);
      case SetPriority(id, priority) => SetPriorityIs(Run(ops), id, priority);
    }
  }

  // ---- the linked form ----

  /** What `pnext` of the `k`-th network of a group is. */
  function Link(group: seq<Net>, k: nat): Option<int>
    requires k < |group|
  {
    if k + 1 < |group| then Some(group[k + 1].id) else None
  }

  ghost predicate Chain(group: seq<Net>, head: int, pnext: map<int, Option<int>>) {
    group != [] && head == group[0].id &&
    forall k :: 0 <= k < |group| ==> group[k].id in pnext && pnext[group[k].id] == Link(group, k)
  }

  /** The heads and chains of a grouping; a network is addressed by its id. */
  ghost predicate Linked(groups: seq<seq<Net>>, pssid: seq<int>, pnext: map<int, Option<int>>) {
    |pssid| == |groups| && forall g :: 0 <= g < |groups| ==> Chain(groups[g], pssid[g], pnext)
  }

  ghost predicate Within(group: seq<Net>, nets: seq<Net>) {
    Increasing(group) && forall k :: 0 <= k < |group| ==> group[k] in nets
  }

  /** Every network of the groups is one of the list, and ids increase within a group. */
  ghost predicate FromList(groups: seq<seq<Net>>, nets: seq<Net>) {
    forall g :: 0 <= g < |groups| ==> Within(groups[g], nets)
  }

  lemma {:induction false} WithinMore(group: seq<Net>, nets: seq<Net>, n: Net)
    requires Within(group, nets) && forall i :: 0 <= i < |nets| ==> nets[i].id < n.id
    ensures Within(group, nets + [n]) && Within(group + [n], nets + [n])
  {
    forall k | 0 <= k < |group| ensures group[k].id < n.id { assert group[k] in nets; }
    assert (nets + [n])[|nets|] == n;
  }

  lemma {:induction false} AddPrioFromList(groups: seq<seq<Net>>, nets: seq<Net>, n: Net)
    requires WellGrouped(groups) && FromList(groups, nets) && forall i :: 0 <= i < |nets| ==> nets[i].id < n.id
    ensures FromList(AddPrio(groups, n), nets + [n])
  {
    forall g | 0 <= g < |groups| ensures Within(groups[g], nets + [n]) && Within(groups[g] + [n], nets + [n]) {
      WithinMore(groups[g], nets, n);
    }
    WithinMore([], nets, n);
    assert [] + [n] == [n];
  }

  lemma {:induction false} GroupsFromList(nets: seq<Net>)
    requires Increasing(nets)
    ensures FromList(Groups(nets), nets)
  {
    if nets != [] {
      var front, n := nets[..|nets| - 1], nets[|nets| - 1];
      GroupsFromList(front);
      GroupsWellGrouped(front);
      AddPrioFromList(Groups(front), front, n);
      assert front + [n] == nets;
    }
  }

  /** An id tells the network and its place in the groups. */
  lemma {:induction false} OnePlace(groups: seq<seq<Net>>, nets: seq<Net>, g: nat, k: nat, h: nat, l: nat)
    requires WellGrouped(groups) && FromList(groups, nets) && Increasing(nets)
    requires g < |groups| && k < |groups[g]| && h < |groups| && l < |groups[h]| && groups[g][k].id == groups[h][l].id
    ensures g == h && k == l
  {
    assert Within(groups[g], nets) && Within(groups[h], nets) && Alike(groups[g]) && Alike(groups[h]);
    assert groups[g][k] == groups[h][l];
    assert g == h;
  }

  lemma {:induction false} AppendChain(group: seq<Net>, head: int, pnext: map<int, Option<int>>, n: Net)
    requires Chain(group, head, pnext) && Increasing(group) && group[|group| - 1].id < n.id
    requires n.id in pnext && pnext[n.id] == None
    ensures Chain(group + [n], head, pnext[group[|group| - 1].id := Some(n.id)])
  {
    var longer := group + [n];
    forall k | 0 <= k < |longer|
      ensures longer[k].id in pnext && pnext[group[|group| - 1].id := Some(n.id)][longer[k].id] == Link(longer, k)
    {
      if k < |group| {
        assert longer[k] == group[k];
      }
    }
  }

  lemma {:induction false} AppendLinked(groups: seq<seq<Net>>, nets: seq<Net>, pssid: seq<int>, pnext: map<int, Option<int>>, i: nat, n: Net)
    requires WellGrouped(groups) && FromList(groups, nets) && Increasing(nets) && Linked(groups, pssid, pnext)
    requires i < |groups| && forall k :: 0 <= k < |nets| ==> nets[k].id < n.id
    requires n.id in pnext && pnext[n.id] == None && groups[i] != []
    ensures var last := groups[i][|groups[i]| - 1].id;
            Linked(groups[i := groups[i] + [n]], pssid, pnext[last := Some(n.id)])
  {
    var m := |groups[i]| - 1;
    var last := groups[i][m].id;
    assert Within(groups[i], nets) && Chain(groups[i], pssid[i], pnext);
    AppendChain(groups[i], pssid[i], pnext, n);
    forall g | 0 <= g < |groups| && g != i ensures Chain(groups[g], pssid[g], pnext[last := Some(n.id)]) {
      assert Chain(groups[g], pssid[g], pnext);
      forall k | 0 <= k < |groups[g]| ensures groups[g][k].id != last {
        if groups[g][k].id == last { OnePlace(groups, nets, g, k, i, m); }
      }
    }
  }

  lemma {:induction false} InsertLinked(groups: seq<seq<Net>>, pssid: seq<int>, pnext: map<int, Option<int>>, j: nat, n: Net)
    requires Linked(groups, pssid, pnext) && j <= |groups| && n.id in pnext && pnext[n.id] == None
    ensures Linked(Insert(groups, j, [n]), Insert(pssid, j, n.id), pnext)
  {
    assert Chain([n], n.id, pnext);
  }

  /** Chains only grow by networks that are in none yet. */
  lemma {:induction false} FreshLinked(groups: seq<seq<Net>>, nets: seq<Net>, pssid: seq<int>, pnext: map<int, Option<int>>, n: Net)
    requires FromList(groups, nets) && Linked(groups, pssid, pnext) && forall k :: 0 <= k < |nets| ==> nets[k].id < n.id
    ensures Linked(groups, pssid, pnext[n.id := None])
  {
    forall g | 0 <= g < |groups| ensures Chain(groups[g], pssid[g], pnext[n.id := None]) {
      assert Within(groups[g], nets) && Chain(groups[g], pssid[g], pnext);
      forall k | 0 <= k < |groups[g]| ensures groups[g][k].id != n.id { assert groups[g][k] in nets; }
    }
  }

  lemma {:induction false} GroupsNext(nets: seq<Net>, done: seq<Net>, n: Net)
    requires Increasing(nets) && done + [n] <= nets
    ensures Groups(done + [n]) == AddPrio(Groups(done), n)
    ensures WellGrouped(Groups(done + [n])) && FromList(Groups(done + [n]), done + [n])
    ensures Increasing(done) && forall k :: 0 <= k < |done| ==> done[k].id < n.id
  {
    assert (done + [n])[..|done|] == done && Increasing(done + [n]);
    assert forall k :: 0 <= k < |done| ==> (done + [n])[k] == done[k];
    GroupsWellGrouped(done + [n]);
    GroupsFromList(done + [n]);
  }

  class Config {
    var nets: seq<Net>
    var pssid: seq<int>
    var pnext: map<int, Option<int>>
    ghost var groups: seq<seq<Net>>

    /** The chains spell the groups of the network list. */
    ghost predicate Valid()
      reads this
    {
      Increasing(nets) && (forall i :: 0 <= i < |nets| ==> nets[i].id >= 0) &&
      groups == Groups(nets) && Linked(groups, pssid, pnext)
    }

    constructor ()
      ensures Valid() && nets == []
    {
      nets, pssid, pnext, groups := [], [], map[], [];
    }

    /** The groups under way while the first networks of the list have been added. */
    ghost predicate Partly(done: seq<Net>)
      reads this
    {
      Increasing(nets) && done <= nets && groups == Groups(done) && WellGrouped(groups) && FromList(groups, done) &&
      Linked(groups, pssid, pnext)
    }

    function Deref(id: int): Net
      requires IndexOfId(nets, id) < |nets|
      reads this
    {
      nets[IndexOfId(nets, id)]
    }

    lemma {:induction false} Derefs(n: Net)
      requires Increasing(nets) && n in nets
      ensures IndexOfId(nets, n.id) < |nets| && Deref(n.id) == n
    {
      var i :| 0 <= i < |nets| && nets[i] == n;
      assert IndexOfId(nets, n.id) == i;
    }

    lemma {:induction false} HeadDerefs(done: seq<Net>, g: nat)
      requires Partly(done) && g < |groups|
      ensures g < |pssid| && IndexOfId(nets, pssid[g]) < |nets| && Deref(pssid[g]) == groups[g][0]
    {
      assert Within(groups[g], done) && Chain(groups[g], pssid[g], pnext) && groups[g][0] in done;
      Derefs(groups[g][0]);
    }

    /** The search for a chain of the priority. */
    method FindChain(priority: int, ghost done: seq<Net>) returns (prio: nat)
      requires Partly(done)
      ensures prio == GroupOf(groups, priority)
    {
      prio := 0;
      while prio < |pssid|
        invariant prio <= |pssid| && forall g :: 0 <= g < prio ==> groups[g][0].priority != priority
      {
        HeadDerefs(done, prio);
        if Deref(pssid[prio]).priority == priority {
          return;
        }
        prio := prio + 1;
      }
    }

    /** Following `pnext` to the end of a chain. */
    method EndOfChain(prio: nat, ghost done: seq<Net>) returns (prev: int)
      requires Partly(done) && prio < |pssid|
      ensures prev == groups[prio][|groups[prio]| - 1].id
    {
      prev := pssid[prio];
      assert Chain(groups[prio], pssid[prio], pnext);
      ghost var k := 0;
      while pnext[prev].Some?
        invariant 0 <= k < |groups[prio]| && prev == groups[prio][k].id && prev in pnext
        decreases |groups[prio]| - k
      {
        prev := pnext[prev].value;
        k := k + 1;
      }
    }

    method FindPlace(priority: int, ghost done: seq<Net>) returns (prio: nat)
      requires Partly(done)
      ensures prio == PlaceFor(groups, priority)
    {
      prio := 0;
      while prio < |pssid|
        invariant prio <= |pssid| && forall g :: 0 <= g < prio ==> groups[g][0].priority >= priority
      {
        HeadDerefs(done, prio);
        if Deref(pssid[prio]).priority < priority {
          return;
        }
        prio := prio + 1;
      }
    }

    /** The network joins the chain of its priority. */
    method AppendToChain(prio: nat, n: Net, ghost done: seq<Net>)
      requires Partly(done) && done + [n] <= nets && n.id in pnext && pnext[n.id] == None
      requires prio == GroupOf(groups, n.priority) < |groups|
      modifies `pnext, `groups
      ensures Linked(groups, pssid, pnext) && groups == AddPrio(old(groups), n)
    {
      GroupsNext(nets, done, n);
      var prev := EndOfChain(prio, done);
      AppendLinked(groups, done, pssid, pnext, prio, n);
      pnext := pnext[prev := Some(n.id)];
      groups := groups[prio := groups[prio] + [n]];
    }

    /** The network is the first of its priority. */
    method InsertChain(n: Net, ghost done: seq<Net>)
      requires Partly(done) && n.id in pnext && pnext[n.id] == None && GroupOf(groups, n.priority) == |groups|
      modifies `pssid, `groups
      ensures Linked(groups, pssid, pnext) && groups == AddPrio(old(groups), n)
    {
      var prio := FindPlace(n.priority, done);
      InsertLinked(groups, pssid, pnext, prio, n);
      pssid := Insert(pssid, prio, n.id);
      groups := Insert(groups, prio, [n]);
    }

    /** `wpa_config_add_prio_network` for the next network of the list. */
    method AddPrioNetwork(n: Net, ghost done: seq<Net>)
      requires Partly(done) && done + [n] <= nets && n.id in pnext && pnext[n.id] == None
      modifies `pssid, `pnext, `groups
      ensures Partly(done + [n])
    {
      GroupsNext(nets, done, n);
      var prio := FindChain(n.priority, done);
      if prio < |pssid| {
        AppendToChain(prio, n, done);
      } else {
        InsertChain(n, done);
      }
    }

    method UpdatePrioList()
      requires Increasing(nets) && forall i :: 0 <= i < |nets| ==> nets[i].id >= 0
      modifies `pssid, `pnext, `groups
      ensures Valid()
    {
      pssid, groups := [], [];
      var i := 0;
      while i < |nets|
        invariant 0 <= i <= |nets| && Partly(nets[..i])
      {
        FreshLinked(groups, nets[..i], pssid, pnext, nets[i]);
        pnext := pnext[nets[i].id := None];
        assert nets[..i] + [nets[i]] == nets[..i + 1];
        AddPrioNetwork(nets[i], nets[..i]);
        i := i + 1;
      }
      assert nets[..i] == nets;
    }

    method AddNetwork() returns (id: int)
      requires Valid()
      modifies this
      ensures Valid() && nets == Apply(old(nets), Add) && id == nets[|nets| - 1].id
      ensures Appended(old(nets), nets)
    {
      id := -1;
      var i := 0;
      while i < |nets|
        invariant 0 <= i <= |nets| && id == MaxId(nets[..i])
      {
        assert nets[..i + 1][..i] == nets[..i];
        if nets[i].id > id {
          id := nets[i].id;
        }
        i := i + 1;
      }
      assert nets[..i] == nets;
      id := id + 1;
      ApplyIncreasing(nets, Add);
      AddAppends(nets);
      nets := nets + [Net(id, 0)];
      UpdatePrioList();
    }

    method FindNetwork(id: int) returns (i: nat)
      ensures i == IndexOfId(nets, id)
    {
      i := 0;
      while i < |nets| && nets[i].id != id
        invariant i <= |nets| && forall k :: 0 <= k < i ==> nets[k].id != id
      {
        i := i + 1;
      }
    }

    method RemoveNetwork(id: int) returns (ret: int)
      requires Valid()
      modifies this
      ensures Valid() && nets == Apply(old(nets), Remove(id)) && Removed(old(nets), nets, id)
      ensures ret == if exists n :: n in old(nets) && n.id == id then 0 else -1
    {
      RemoveIff(nets, id);
      var i := FindNetwork(id);
      if i == |nets| {
        return -1;
      }
      ApplyIncreasing(nets, Remove(id));
      nets := Cut(nets, i);
      UpdatePrioList();
      return 0;
    }

    /** A priority changed from outside; the groups are rebuilt. */
    method ChangePriority(id: int, priority: int) returns (ret: int)
      requires Valid()
      modifies this
      ensures Valid() && nets == Apply(old(nets), SetPriority(id, priority))
      ensures Reprioritised(old(nets), nets, id, priority)
      ensures ret == if exists n :: n in old(nets) && n.id == id then 0 else -1
    {
      SetPriorityIs(nets, id, priority);
      var i := FindNetwork(id);
      if i == |nets| {
        return -1;
      }
      ApplyIncreasing(nets, SetPriority(id, priority));
      nets := nets[i := nets[i].(priority := priority)];
      UpdatePrioList();
      return 0;
    }
  }
}
