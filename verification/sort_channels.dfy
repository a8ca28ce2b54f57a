/** The channel reordering script as a pure plan: pick the top-level text channels whose
    topic starts with the validator prefix, order them by name descending, and assign
    positions counting down from the total number of channels, issuing a patch only where
    a channel's position changes. */
module SortChannels {
  import opened Wrappers
  import opened Json
  import opened Events

  const TOPIC_PREFIX: string := "terravaloper1"

  predicate StartsWith(s: string, prefix: string) {
    |prefix| <= |s| && s[..|prefix|] == prefix
  }

  /** The filter: a topic is required, there must be no parent, the channel must be a
      guild text channel, and the topic must start with the prefix. */
  predicate Selected(c: GuildChannel) {
    c.topic.Some? && c.parentId.None? && c.uType == GuildText && StartsWith(c.topic.value, TOPIC_PREFIX)
  }

  /** The selected channels, in their original order. */
  function Select(cs: seq<GuildChannel>): (r: seq<GuildChannel>)
    ensures forall c :: multiset(r)[c] == (if Selected(c) then multiset(cs)[c] else 0)
    ensures |r| <= |cs|
    decreases |cs|
  {
    if |cs| == 0 then []
    else
      assert cs == [cs[0]] + cs[1..];
      (if Selected(cs[0]) then [cs[0]] else []) + Select(cs[1..])
  }

  // ---------------------------------------------------------------------------
  // String order
  // ---------------------------------------------------------------------------

  /** Rust's `Ord` for `String`: lexicographic, character by character (UTF-8 byte order
      and code-point order agree), a proper prefix first. */
  predicate Less(a: string, b: string)
    decreases |a|
  {
    if |a| == 0 then |b| > 0
    else if |b| == 0 then false
    else if a[0] != b[0] then a[0] < b[0]
    else Less(a[1..], b[1..])
  }

  lemma {:induction false} LessTrans(a: string, b: string, c: string)
    requires Less(a, b) && Less(b, c)
    ensures Less(a, c)
    decreases |a|
  {
    if |a| > 0 && a[0] == b[0] && b[0] == c[0] {
      LessTrans(a[1..], b[1..], c[1..]);
    }
  }

  lemma {:induction false} LessTotal(a: string, b: string)
    ensures a == b || Less(a, b) || Less(b, a)
    ensures !(Less(a, b) && Less(b, a))
    decreases |a|
  {
    if |a| > 0 && |b| > 0 && a[0] == b[0] {
      LessTotal(a[1..], b[1..]);
      if a[1..] == b[1..] {
        assert a == [a[0]] + a[1..] && b == [b[0]] + b[1..];
      }
    }
  }

  lemma {:induction false} LessIrreflexive(a: string)
    ensures !Less(a, a)
    decreases |a|
  {
    if |a| > 0 {
      LessIrreflexive(a[1..]);
    }
  }

  /** "Not less than" is transitive. */
  lemma AtLeastTrans(a: string, b: string, c: string)
    requires !Less(a, b) && !Less(b, c)
    ensures !Less(a, c)
  {
    LessTotal(a, b);
    if Less(a, c) {
      if a == b {
      } else {
        LessTrans(b, a, c);
      }
    }
  }

  // ---------------------------------------------------------------------------
  // Sorting by name, descending
  // ---------------------------------------------------------------------------

  predicate SortedDesc(s: seq<GuildChannel>) {
    forall i, j :: 0 <= i < j < |s| ==> !Less(s[i].name, s[j].name)
  }

  /** Insert `c` before the first element whose name is not greater than its own. */
  function Insert(c: GuildChannel, s: seq<GuildChannel>): (r: seq<GuildChannel>)
    requires SortedDesc(s)
    ensures SortedDesc(r)
    ensures multiset(r) == multiset(s) + multiset{c}
    decreases |s|
  {
    if |s| == 0 || !Less(c.name, s[0].name) then
      InsertFront(c, s);
      [c] + s
    else
      var rest := Insert(c, s[1..]);
      InsertBehind(c, s, rest);
      [s[0]] + rest
  }

  /** A channel not below the head goes in front. */
  lemma InsertFront(c: GuildChannel, s: seq<GuildChannel>)
    requires SortedDesc(s)
    requires |s| == 0 || !Less(c.name, s[0].name)
    ensures SortedDesc([c] + s)
  {
    forall j | 0 <= j < |s| ensures !Less(c.name, s[j].name) {
      if j > 0 { AtLeastTrans(c.name, s[0].name, s[j].name); }
    }
    var r := [c] + s;
    assert forall i :: 0 < i < |r| ==> r[i] == s[i - 1];
  }

  /** A channel below the head goes behind it, into the sorted tail. */
  lemma InsertBehind(c: GuildChannel, s: seq<GuildChannel>, rest: seq<GuildChannel>)
    requires SortedDesc(s) && |s| > 0 && Less(c.name, s[0].name)
    requires SortedDesc(rest) && multiset(rest) == multiset(s[1..]) + multiset{c}
    ensures SortedDesc([s[0]] + rest)
    ensures multiset([s[0]] + rest) == multiset(s) + multiset{c}
  {
    assert s == [s[0]] + s[1..];
    LessTotal(c.name, s[0].name);
    forall x | x in rest ensures !Less(s[0].name, x.name) {
      assert x in multiset(rest);
      if x != c {
        assert x in multiset(s[1..]);
        var j :| 0 <= j < |s[1..]| && s[1..][j] == x;
        assert s[j + 1] == x;
      }
    }
    var r := [s[0]] + rest;
    assert forall i :: 0 < i < |r| ==> r[i] == rest[i - 1];
    forall i, j | 0 <= i < j < |r| ensures !Less(r[i].name, r[j].name) {
      if i > 0 {
        assert r[i] == rest[i - 1] && r[j] == rest[j - 1];
      } else {
        assert r[j] in rest;
      }
    }
  }

  /** `sort_by(|a, b| b.name.cmp(&a.name))`: the same channels, names descending. Ties keep
      their input order. */
  function SortByNameDesc(s: seq<GuildChannel>): (r: seq<GuildChannel>)
    ensures SortedDesc(r)
    ensures multiset(r) == multiset(s)
    decreases |s|
  {
    if |s| == 0 then []
    else
      assert s == [s[0]] + s[1..];
      Insert(s[0], SortByNameDesc(s[1..]))
  }

  /** The channels the loop visits, in visiting order. */
  function Ordered(channels: seq<GuildChannel>): (r: seq<GuildChannel>)
    ensures |r| <= |channels|
  {
    var r := SortByNameDesc(Select(channels));
    assert |r| == |multiset(r)| == |multiset(Select(channels))|;
    r
  }

  /** The visited channels are exactly the selected ones, each as often as it occurs, in
      descending name order, and there are no more of them than channels. */
  lemma OrderedChannels(channels: seq<GuildChannel>)
    ensures var o := Ordered(channels);
      && SortedDesc(o)
      && (forall c :: multiset(o)[c] == (if Selected(c) then multiset(channels)[c] else 0))
      && (forall c :: c in o ==> Selected(c))
      && |o| <= |channels|
  {
    var o := Ordered(channels);
    forall c | c in o ensures Selected(c) {
      assert multiset(o)[c] > 0;
    }
  }

  // ---------------------------------------------------------------------------
  // The position plan
  // ---------------------------------------------------------------------------

  /** A request to move a channel to a position. */
  datatype Patch = Patch(channel: Snowflake, position: U64)

  /** Reference definition: visiting `ordered` with counter `start`, the k-th channel is
      assigned `start - k` and patched when that differs from its position. */
  function PlanFrom(ordered: seq<GuildChannel>, start: nat): seq<Patch>
    requires |ordered| <= start < U64_BOUND
    decreases |ordered|
  {
    if |ordered| == 0 then []
    else
      (if start != ordered[0].position then [Patch(ordered[0].id, start)] else [])
      + PlanFrom(ordered[1..], start - 1)
  }

  /** Each planned patch belongs to one visited channel, carries that channel's assigned
      position, and exists only because the position differs; all positions lie in
      `(start - |ordered|, start]`. */
  predicate PatchesSound(plan: seq<Patch>, ordered: seq<GuildChannel>, start: nat) {
    forall p :: p in plan ==>
      && start - |ordered| < p.position <= start
      && ordered[start - p.position].id == p.channel
      && ordered[start - p.position].position != p.position
  }

  lemma {:induction false} PlanSound(ordered: seq<GuildChannel>, start: nat)
    requires |ordered| <= start < U64_BOUND
    ensures PatchesSound(PlanFrom(ordered, start), ordered, start)
    decreases |ordered|
  {
    if |ordered| > 0 {
      var tail := ordered[1..];
      PlanSound(tail, start - 1);
      var rest := PlanFrom(tail, start - 1);
      assert PatchesSound(rest, tail, start - 1);
      forall p | p in rest
        ensures ordered[start - p.position] == tail[(start - 1) - p.position]
      {
      }
    }
  }

  /** Every visited channel whose assigned position differs from its own gets its patch. */
  predicate PatchesComplete(plan: seq<Patch>, ordered: seq<GuildChannel>, start: nat)
    requires |ordered| <= start < U64_BOUND
  {
    forall k :: 0 <= k < |ordered| && start - k != ordered[k].position ==>
      Patch(ordered[k].id, start - k) in plan
  }

  lemma {:induction false} PlanComplete(ordered: seq<GuildChannel>, start: nat)
    requires |ordered| <= start < U64_BOUND
    ensures PatchesComplete(PlanFrom(ordered, start), ordered, start)
    decreases |ordered|
  {
    if |ordered| > 0 {
      var tail := ordered[1..];
      PlanComplete(tail, start - 1);
      var plan := PlanFrom(ordered, start);
      var rest := PlanFrom(tail, start - 1);
      assert PatchesComplete(rest, tail, start - 1);
      assert forall p :: p in rest ==> p in plan;
      forall k | 0 <= k < |ordered| && start - k != ordered[k].position
        ensures Patch(ordered[k].id, start - k) in plan
      {
        if k > 0 {
          assert tail[k - 1] == ordered[k];
          assert Patch(tail[k - 1].id, (start - 1) - (k - 1)) in rest;
        }
      }
    }
  }

  predicate PositionsDecreasing(plan: seq<Patch>) {
    forall i, j :: 0 <= i < j < |plan| ==> plan[i].position > plan[j].position
  }

  /** The planned positions are strictly decreasing. */
  lemma {:induction false} PlanDecreasing(ordered: seq<GuildChannel>, start: nat)
    requires |ordered| <= start < U64_BOUND
    ensures PositionsDecreasing(PlanFrom(ordered, start))
    decreases |ordered|
  {
    if |ordered| > 0 {
      var tail := ordered[1..];
      PlanDecreasing(tail, start - 1);
      PlanSound(tail, start - 1);
      assert PatchesSound(PlanFrom(tail, start - 1), tail, start - 1);
      var plan := PlanFrom(ordered, start);
      var head := if start != ordered[0].position then [Patch(ordered[0].id, start)] else [];
      var rest := PlanFrom(tail, start - 1);
      assert plan == head + rest;
      forall i, j | 0 <= i < j < |plan| ensures plan[i].position > plan[j].position {
        if i < |head| {
          assert plan[i] == head[0];
          assert plan[j] == rest[j - |head|];
          assert plan[j] in rest;
        } else {
          assert PositionsDecreasing(rest);
          assert plan[i] == rest[i - |head|] && plan[j] == rest[j - |head|];
        }
      }
    }
  }

  /** One step of the plan: the channel at `k` is considered, then the rest. */
  lemma PlanStep(ordered: seq<GuildChannel>, k: nat, i: nat)
    requires k < |ordered| && |ordered| - k <= i < U64_BOUND
    ensures PlanFrom(ordered[k..], i)
      == (if i != ordered[k].position then [Patch(ordered[k].id, i)] else [])
         + PlanFrom(ordered[k + 1..], i - 1)
  {
    assert ordered[k..][0] == ordered[k] && ordered[k..][1..] == ordered[k + 1..];
  }

  /** The loop of the script: walk the ordered channels with a `usize` counter starting at
      `total`, patch where the position differs, and count down. The counter is at least 1
      whenever a channel is visited, so it never underflows. */
  method AssignPositions(ordered: seq<GuildChannel>, total: U64) returns (patches: seq<Patch>)
    requires |ordered| <= total
    ensures patches == PlanFrom(ordered, total)
    ensures PatchesSound(patches, ordered, total)
    ensures PatchesComplete(patches, ordered, total)
    ensures PositionsDecreasing(patches)
  {
    var i: U64 := total;
    patches := [];
    for k := 0 to |ordered|
      invariant i == total - k
      invariant patches + PlanFrom(ordered[k..], i) == PlanFrom(ordered, total)
    {
      var channel := ordered[k];
      PlanStep(ordered, k, i);
      ghost var later := PlanFrom(ordered[k + 1..], i - 1);
      if i != channel.position {
        var patch := Patch(channel.id, i);
        assert patches + ([patch] + later) == (patches + [patch]) + later;
        patches := patches + [patch];
      } else {
        assert [] + later == later;
      }
      i := i - 1;
    }
    assert ordered[|ordered|..] == [];
    PlanSound(ordered, total);
    PlanComplete(ordered, total);
    PlanDecreasing(ordered, total);
  }

  /** The whole script as a plan: the selected channels, sorted by name descending, are
      assigned positions counting down from the number of all channels in the guild. */
  method PositionPlan(channels: seq<GuildChannel>) returns (patches: seq<Patch>)
    requires |channels| < U64_BOUND
    ensures patches == PlanFrom(Ordered(channels), |channels|)
    ensures PatchesSound(patches, Ordered(channels), |channels|)
    ensures PatchesComplete(patches, Ordered(channels), |channels|)
    ensures PositionsDecreasing(patches)
  {
    patches := AssignPositions(Ordered(channels), |channels|);
  }
}
