/** Decoding of PBF primitive groups: dense nodes, way references and relation members. */
module PrimitiveBlock {
  import opened Basics

  type Tags = map<string, string>

  // ---- Delta coding ----

  /** Reference encoder: each value as the difference to the one before it. */
  function Deltas(prev: int, values: seq<int>): (ds: seq<int>)
    ensures |ds| == |values|
    decreases |values|
  {
    if values == [] then [] else [values[0] - prev] + Deltas(values[0], values[1..])
  }

  /** What the accumulating loops produce, from an accumulator on. */
  function Sums(acc: int, ds: seq<int>): (values: seq<int>)
    ensures |values| == |ds|
    decreases |ds|
  {
    if ds == [] then [] else [acc + ds[0]] + Sums(acc + ds[0], ds[1..])
  }

  lemma {:induction false} SumsInvertDeltas(prev: int, values: seq<int>)
    ensures Sums(prev, Deltas(prev, values)) == values
    decreases |values|
  {
    if values != [] {
      SumsInvertDeltas(values[0], values[1..]);
    }
  }

  lemma {:induction false} DeltasInvertSums(acc: int, ds: seq<int>)
    ensures Deltas(acc, Sums(acc, ds)) == ds
    decreases |ds|
  {
    if ds != [] {
      DeltasInvertSums(acc + ds[0], ds[1..]);
    }
  }

  /** Each value is the one before it plus its delta... */
  lemma {:induction false} SumsAt(acc: int, ds: seq<int>, k: nat)
    requires k < |ds|
    ensures Sums(acc, ds)[k] == (if k == 0 then acc else Sums(acc, ds)[k - 1]) + ds[k]
    decreases |ds|
  {
    if k > 0 {
      SumsAt(acc + ds[0], ds[1..], k - 1);
    }
  }

  /** ...and each delta is the value minus the one before it. */
  lemma {:induction false} DeltasAt(prev: int, values: seq<int>, k: nat)
    requires k < |values|
    ensures Deltas(prev, values)[k] == values[k] - if k == 0 then prev else values[k - 1]
    decreases |values|
  {
    if k > 0 {
      DeltasAt(values[0], values[1..], k - 1);
    }
  }

  /** The node references of a way. */
  method ParseRefs(refs: seq<int>) returns (nodeRefs: seq<int>)
    ensures nodeRefs == Sums(0, refs)
  {
    nodeRefs := [];
    var curRef := 0;
    for i := 0 to |refs|
      invariant nodeRefs + Sums(curRef, refs[i..]) == Sums(0, refs)
    {
      assert refs[i..][1..] == refs[i + 1..];
      curRef := curRef + refs[i];
      nodeRefs := nodeRefs + [curRef];
    }
  }

  // ---- Relation members ----

  datatype MemberType = NODE | WAY | RELATION
  datatype RawMember = RawMember(id: int, mtype: MemberType, role: nat)

  function RoleName(table: seq<string>, sid: nat): string {
    if sid < |table| then table[sid] else ""
  }

  /** The way members of a relation, in order, whatever members of other types are in between. */
  function WayMembers(table: seq<string>, ms: seq<RawMember>): seq<Member> {
    if ms == [] then []
    else (if ms[0].mtype.WAY? then [Member(ms[0].id, RoleName(table, ms[0].role))] else [])
         + WayMembers(table, ms[1..])
  }

  /** The way members by position, with the name of the role if the string table has it. */
  ghost function WayMembersAt(table: seq<string>, ms: seq<RawMember>): map<nat, Member> {
    map i: nat | i < |ms| && ms[i].mtype.WAY? ::
      Member(ms[i].id, if ms[i].role < |table| then table[ms[i].role] else "")
  }

  lemma {:induction false} WayMembersListed(table: seq<string>, ms: seq<RawMember>)
    ensures Listed(WayMembers(table, ms), WayMembersAt(table, ms))
  {
    hide Listed;
    if ms == [] {
      ListedNone(WayMembersAt(table, ms));
    } else {
      var first := if ms[0].mtype.WAY? then Some(Member(ms[0].id, RoleName(table, ms[0].role))) else None;
      WayMembersListed(table, ms[1..]);
      ListedCons(first, WayMembers(table, ms[1..]), WayMembersAt(table, ms[1..]), WayMembersAt(table, ms));
    }
  }

  /** Reference encoder of the three parallel lists. */
  function MemberIds(ms: seq<RawMember>): seq<int> { seq(|ms|, i requires 0 <= i < |ms| => ms[i].id) }
  function MemberTypes(ms: seq<RawMember>): seq<MemberType> { seq(|ms|, i requires 0 <= i < |ms| => ms[i].mtype) }
  function MemberRoles(ms: seq<RawMember>): seq<nat> { seq(|ms|, i requires 0 <= i < |ms| => ms[i].role) }

  /** The three lists of a message, read in parallel. */
  function Zip(ids: seq<int>, types: seq<MemberType>, roles: seq<nat>): (ms: seq<RawMember>)
    requires |ids| == |types| == |roles|
    ensures |ms| == |ids|
  {
    if ids == [] then [] else [RawMember(ids[0], types[0], roles[0])] + Zip(ids[1..], types[1..], roles[1..])
  }

  method ParseMembers(table: seq<string>, memids: seq<int>, types: seq<MemberType>, roles: seq<nat>)
    returns (wayMembers: seq<Member>)
    requires |memids| == |types| == |roles|
    ensures wayMembers == WayMembers(table, Zip(Sums(0, memids), types, roles))
  {
    wayMembers := [];
    var curMemid := 0;
    for i := 0 to |memids|
      invariant wayMembers + WayMembers(table, Zip(Sums(curMemid, memids[i..]), types[i..], roles[i..]))
                == WayMembers(table, Zip(Sums(0, memids), types, roles))
    {
      assert memids[i..][1..] == memids[i + 1..] && types[i..][1..] == types[i + 1..];
      assert roles[i..][1..] == roles[i + 1..];
      curMemid := curMemid + memids[i];
      if types[i].WAY? {
        wayMembers := wayMembers + [Member(curMemid, if roles[i] < |table| then table[roles[i]] else "")];
      }
    }
  }

  lemma {:induction false} ZipBack(ms: seq<RawMember>)
    ensures Zip(MemberIds(ms), MemberTypes(ms), MemberRoles(ms)) == ms
  {
    if ms != [] {
      assert MemberIds(ms)[1..] == MemberIds(ms[1..]) && MemberTypes(ms)[1..] == MemberTypes(ms[1..]);
      assert MemberRoles(ms)[1..] == MemberRoles(ms[1..]);
      ZipBack(ms[1..]);
    }
  }

  /** The ids survive although only way members are kept: every id counts for the ones after it. */
  lemma MembersRoundTrip(table: seq<string>, ms: seq<RawMember>)
    ensures WayMembers(table, Zip(Sums(0, Deltas(0, MemberIds(ms))), MemberTypes(ms), MemberRoles(ms)))
            == WayMembers(table, ms)
    ensures Listed(WayMembers(table, ms), WayMembersAt(table, ms))
  {
    SumsInvertDeltas(0, MemberIds(ms));
    ZipBack(ms);
    WayMembersListed(table, ms);
  }

  lemma {:induction false} ZipAt(ids: seq<int>, types: seq<MemberType>, roles: seq<nat>, k: nat)
    requires |ids| == |types| == |roles| && k < |ids|
    ensures Zip(ids, types, roles)[k] == RawMember(ids[k], types[k], roles[k])
  {
    if k > 0 {
      ZipAt(ids[1..], types[1..], roles[1..], k - 1);
    }
  }

  // ---- Dense nodes ----

  datatype Dense = Dense(ids: seq<int>, lats: seq<int>, lons: seq<int>, keysVals: seq<nat>)

  /** Coordinates are doubles, in degrees. */
  datatype Node = Node(id: int, lat: Bits64, lon: Bits64, tags: Tags)

  /** `degrees` is the multiplication of an integer of nanodegrees by 1e-9 in doubles, however it rounds. */
  datatype Grid = Grid(granularity: int, latOffset: int, lonOffset: int, degrees: int -> Bits64) {
    function Lat(lat: int): Bits64 { degrees(latOffset + granularity * lat) }
    function Lon(lon: int): Bits64 { degrees(lonOffset + granularity * lon) }

    /** Nothing that the decoder computes for such a node leaves the 64-bit range. */
    predicate Holds(id: int, lat: int, lon: int) {
      && IsInt64(id) && IsInt64(lat) && IsInt64(lon)
      && IsInt64(granularity * lat) && IsInt64(latOffset + granularity * lat)
      && IsInt64(granularity * lon) && IsInt64(lonOffset + granularity * lon)
    }
  }

  /** A node as the encoder sees it: grid coordinates, and tags as indices into the string table. */
  datatype Source = Source(id: int, lat: int, lon: int, tags: seq<(nat, nat)>)

  /** The tags of a node; a later pair with the same key wins. */
  function TagMap(table: seq<string>, acc: Tags, pairs: seq<(nat, nat)>): Tags
    requires forall p | p in pairs :: p.0 < |table| && p.1 < |table|
    decreases |pairs|
  {
    if pairs == [] then acc
    else
      assert pairs[0] in pairs && forall p | p in pairs[1..] :: p in pairs;
      TagMap(table, acc[table[pairs[0].0] := table[pairs[0].1]], pairs[1..])
  }

  /** Tag keys are not index 0, which delimits nodes, and all indices are in the string table. */
  predicate Encodable(table: seq<string>, ns: seq<Source>) {
    forall n, p | n in ns && p in n.tags :: 0 < p.0 < |table| && p.1 < |table|
  }

  /** What a file can hold: ids and coordinates of 64 bits. */
  predicate AllHeld(g: Grid, ns: seq<Source>) {
    forall n | n in ns :: g.Holds(n.id, n.lat, n.lon)
  }

  function NodeOf(table: seq<string>, g: Grid, n: Source): Node
    requires forall p | p in n.tags :: p.0 < |table| && p.1 < |table|
  {
    Node(n.id, g.Lat(n.lat), g.Lon(n.lon), TagMap(table, map[], n.tags))
  }

  function NodesOf(table: seq<string>, g: Grid, ns: seq<Source>): (r: seq<Node>)
    requires Encodable(table, ns)
    ensures |r| == |ns|
  {
    if ns == [] then []
    else
      assert ns[0] in ns && forall n | n in ns[1..] :: n in ns;
      [NodeOf(table, g, ns[0])] + NodesOf(table, g, ns[1..])
  }

  predicate InTable(table: seq<string>, pairs: seq<(nat, nat)>) {
    forall i | 0 <= i < |pairs| :: pairs[i].0 < |table| && pairs[i].1 < |table|
  }

  ghost predicate HasKey(table: seq<string>, pairs: seq<(nat, nat)>, key: string)
    requires InTable(table, pairs)
  {
    exists i :: 0 <= i < |pairs| && table[pairs[i].0] == key
  }

  /** The tags that pairs of string table indices, key first, stand for; the last pair with a key counts. */
  ghost predicate TagsAre(table: seq<string>, pairs: seq<(nat, nat)>, tags: Tags)
    requires InTable(table, pairs)
  {
    && (forall key :: key in tags <==> HasKey(table, pairs, key))
    && forall i | 0 <= i < |pairs| && !HasKey(table, pairs[i + 1..], table[pairs[i].0]) ::
         table[pairs[i].0] in tags && tags[table[pairs[i].0]] == table[pairs[i].1]
  }

  lemma {:induction false} TagMapAppend(table: seq<string>, acc: Tags, pairs: seq<(nat, nat)>)
    requires pairs != [] && forall p | p in pairs :: p.0 < |table| && p.1 < |table|
    ensures var n, last := |pairs| - 1, pairs[|pairs| - 1];
            && (forall p | p in pairs[..n] :: p.0 < |table| && p.1 < |table|)
            && last.0 < |table| && last.1 < |table|
            && TagMap(table, acc, pairs) == TagMap(table, acc, pairs[..n])[table[last.0] := table[last.1]]
    decreases |pairs|
  {
    assert pairs[0] in pairs && pairs[|pairs| - 1] in pairs && forall p | p in pairs[1..] :: p in pairs;
    if |pairs| > 1 {
      TagMapAppend(table, acc[table[pairs[0].0] := table[pairs[0].1]], pairs[1..]);
      assert pairs[1..][..|pairs| - 2] == pairs[..|pairs| - 1][1..];
    }
  }

  lemma HasKeyAppend(table: seq<string>, pairs: seq<(nat, nat)>, p: (nat, nat), key: string)
    requires InTable(table, pairs + [p])
    ensures InTable(table, pairs) && p.0 < |table| && p.1 < |table|
    ensures HasKey(table, pairs + [p], key) <==> HasKey(table, pairs, key) || table[p.0] == key
  {
    var all := pairs + [p];
    assert all[|pairs|] == p && forall i | 0 <= i < |pairs| :: all[i] == pairs[i];
    if HasKey(table, pairs, key) {
      var i :| 0 <= i < |pairs| && table[pairs[i].0] == key;
      assert table[all[i].0] == key;
    }
  }

  lemma TagsAreAppend(table: seq<string>, pairs: seq<(nat, nat)>, p: (nat, nat), tags: Tags)
    requires InTable(table, pairs + [p]) && InTable(table, pairs) && TagsAre(table, pairs, tags)
    requires p.0 < |table| && p.1 < |table|
    ensures TagsAre(table, pairs + [p], tags[table[p.0] := table[p.1]])
  {
    hide HasKey;
    var all, tags' := pairs + [p], tags[table[p.0] := table[p.1]];
    forall key ensures key in tags' <==> HasKey(table, all, key) {
      HasKeyAppend(table, pairs, p, key);
    }
    forall i | 0 <= i < |all| && !HasKey(table, all[i + 1..], table[all[i].0])
      ensures table[all[i].0] in tags' && tags'[table[all[i].0]] == table[all[i].1]
    {
      if i < |pairs| {
        assert all[i + 1..] == pairs[i + 1..] + [p] && all[i] == pairs[i];
        HasKeyAppend(table, pairs[i + 1..], p, table[all[i].0]);
      }
    }
  }

  lemma InTableMembers(table: seq<string>, pairs: seq<(nat, nat)>)
    ensures InTable(table, pairs) <==> forall p | p in pairs :: p.0 < |table| && p.1 < |table|
  {
    if InTable(table, pairs) {
      forall p | p in pairs ensures p.0 < |table| && p.1 < |table| {
        var i :| 0 <= i < |pairs| && pairs[i] == p;
      }
    } else {
      var i :| 0 <= i < |pairs| && !(pairs[i].0 < |table| && pairs[i].1 < |table|);
      assert pairs[i] in pairs;
    }
  }

  lemma {:induction false} TagMapIs(table: seq<string>, pairs: seq<(nat, nat)>)
    requires InTable(table, pairs)
    ensures forall p | p in pairs :: p.0 < |table| && p.1 < |table|
    ensures TagsAre(table, pairs, TagMap(table, map[], pairs))
    decreases |pairs|
  {
    InTableMembers(table, pairs);
    if pairs == [] {
      assert forall key :: !HasKey(table, pairs, key);
    } else {
      hide HasKey, TagsAre;
      var n := |pairs| - 1;
      var front, last := pairs[..n], pairs[n];
      assert pairs == front + [last] && InTable(table, front);
      TagMapAppend(table, map[], pairs);
      hide TagMap;
      TagMapIs(table, front);
      TagsAreAppend(table, front, last, TagMap(table, map[], front));
    }
  }

  /** A decoded node is what the encoder was given. */
  ghost predicate IsNode(table: seq<string>, g: Grid, n: Source, node: Node) {
    && InTable(table, n.tags) && node.id == n.id
    && node.lat == g.degrees(g.latOffset + g.granularity * n.lat)
    && node.lon == g.degrees(g.lonOffset + g.granularity * n.lon)
    && TagsAre(table, n.tags, node.tags)
  }

  lemma NodeOfIs(table: seq<string>, g: Grid, n: Source)
    requires InTable(table, n.tags)
    ensures forall p | p in n.tags :: p.0 < |table| && p.1 < |table|
    ensures IsNode(table, g, n, NodeOf(table, g, n))
  {
    hide TagMap, TagsAre, InTable;
    InTableMembers(table, n.tags);
    TagMapIs(table, n.tags);
  }

  lemma {:induction false} NodesOfAre(table: seq<string>, g: Grid, ns: seq<Source>, k: nat)
    requires Encodable(table, ns) && k < |ns|
    ensures IsNode(table, g, ns[k], NodesOf(table, g, ns)[k])
  {
    assert ns[0] in ns && forall n | n in ns[1..] :: n in ns;
    InTableMembers(table, ns[0].tags);
    hide NodeOf, IsNode, InTable;
    if k == 0 {
      NodeOfIs(table, g, ns[0]);
    } else {
      NodesOfAre(table, g, ns[1..], k - 1);
    }
  }

  function EncodePairs(pairs: seq<(nat, nat)>): seq<nat> {
    if pairs == [] then [] else [pairs[0].0, pairs[0].1] + EncodePairs(pairs[1..])
  }

  /** Per node its pairs and a 0. */
  function EncodeKv(ns: seq<Source>): seq<nat> {
    if ns == [] then [] else EncodePairs(ns[0].tags) + [0] + EncodeKv(ns[1..])
  }

  /** In the stream, keys are at even places and their values after them... */
  lemma {:induction false} EncodePairsAt(pairs: seq<(nat, nat)>, k: nat)
    ensures |EncodePairs(pairs)| == 2 * |pairs|
    ensures k < |pairs| ==> EncodePairs(pairs)[2 * k] == pairs[k].0 && EncodePairs(pairs)[2 * k + 1] == pairs[k].1
    decreases |pairs|
  {
    if pairs != [] {
      EncodePairsAt(pairs[1..], if k > 0 then k - 1 else 0);
    }
  }

  /** ...and the pairs of each node end with a 0. */
  lemma {:induction false} EncodeKvIs(ns: seq<Source>)
    ensures EncodeKv(ns) == Flatten(seq(|ns|, i requires 0 <= i < |ns| => EncodePairs(ns[i].tags) + [0]))
  {
    hide EncodePairs;
    if ns != [] {
      EncodeKvIs(ns[1..]);
      var parts := seq(|ns|, i requires 0 <= i < |ns| => EncodePairs(ns[i].tags) + [0]);
      assert parts[1..] == seq(|ns[1..]|, i requires 0 <= i < |ns[1..]| => EncodePairs(ns[1..][i].tags) + [0]);
    }
  }

  predicate AllUntagged(ns: seq<Source>) {
    forall n | n in ns :: n.tags == []
  }

  function Ids(ns: seq<Source>): seq<int> { seq(|ns|, i requires 0 <= i < |ns| => ns[i].id) }
  function Lats(ns: seq<Source>): seq<int> { seq(|ns|, i requires 0 <= i < |ns| => ns[i].lat) }
  function Lons(ns: seq<Source>): seq<int> { seq(|ns|, i requires 0 <= i < |ns| => ns[i].lon) }

  /** Reference encoder; if no node has tags, `short` leaves keys_vals out altogether. */
  function Encode(ns: seq<Source>, short: bool): Dense {
    Dense(Deltas(0, Ids(ns)), Deltas(0, Lats(ns)), Deltas(0, Lons(ns)),
          if short && AllUntagged(ns) then [] else EncodeKv(ns))
  }

  /** The index at which the tag loop stops, None if it would read outside keys_vals or the string table. */
  function RunEnd(table: seq<string>, kv: seq<nat>, i: nat): (end: Option<nat>)
    ensures end.Some? && i <= |kv| ==> i <= end.value <= |kv|
    ensures i >= |kv| ==> end == Some(i)
    decreases |kv| - i
  {
    if i >= |kv| || kv[i] == 0 then Some(i)
    else if i + 1 >= |kv| || kv[i] >= |table| || kv[i + 1] >= |table| then None
    else RunEnd(table, kv, i + 2)
  }

  function RunTags(table: seq<string>, acc: Tags, kv: seq<nat>, i: nat): Tags
    requires RunEnd(table, kv, i).Some?
    decreases |kv| - i
  {
    if i >= |kv| || kv[i] == 0 then acc
    else RunTags(table, acc[table[kv[i]] := table[kv[i + 1]]], kv, i + 2)
  }

  /** The stream has these pairs from index i on, keys first, and none of the keys is 0. */
  ghost predicate PairsFrom(kv: seq<nat>, i: nat, pairs: seq<(nat, nat)>) {
    forall k | 0 <= k < |pairs| ::
      i + 2 * k + 1 < |kv| && pairs[k] == (kv[i + 2 * k], kv[i + 2 * k + 1]) && pairs[k].0 != 0
  }

  lemma PairsBefore(kv: seq<nat>, i: nat, pairs: seq<(nat, nat)>)
    requires PairsFrom(kv, i + 2, pairs) && i + 1 < |kv| && kv[i] != 0
    ensures PairsFrom(kv, i, [(kv[i], kv[i + 1])] + pairs)
  {
    var all := [(kv[i], kv[i + 1])] + pairs;
    forall k | 0 < k < |all|
      ensures i + 2 * k + 1 < |kv| && all[k] == (kv[i + 2 * k], kv[i + 2 * k + 1]) && all[k].0 != 0
    {
      assert all[k] == pairs[k - 1] && i + 2 + 2 * (k - 1) == i + 2 * k;
    }
  }

  /** The run of a node, in any stream, is the pairs up to the next zero in a key's place or the end of the stream,
      and its tags are those of the pairs. */
  lemma {:induction false} RunIs(table: seq<string>, acc: Tags, kv: seq<nat>, i: nat) returns (pairs: seq<(nat, nat)>)
    requires RunEnd(table, kv, i).Some?
    ensures var end := RunEnd(table, kv, i).value; end == i + 2 * |pairs| && (end >= |kv| || kv[end] == 0)
    ensures PairsFrom(kv, i, pairs) && forall p | p in pairs :: p.0 < |table| && p.1 < |table|
    ensures RunTags(table, acc, kv, i) == TagMap(table, acc, pairs)
    decreases |kv| - i
  {
    if i >= |kv| || kv[i] == 0 {
      pairs := [];
    } else {
      var p := (kv[i], kv[i + 1]);
      var rest := RunIs(table, acc[table[p.0] := table[p.1]], kv, i + 2);
      PairsBefore(kv, i, rest);
      hide PairsFrom;
      pairs := [p] + rest;
      assert pairs[0] == p && pairs[1..] == rest;
    }
  }

  /** All indices that decoding n nodes touches are in range. */
  predicate Safe(table: seq<string>, kv: seq<nat>, i: nat, n: nat)
    decreases n
  {
    n == 0 || (RunEnd(table, kv, i).Some? && Safe(table, kv, RunEnd(table, kv, i).value + 1, n - 1))
  }

  /** What the loop appends for the nodes from position k on. */
  function DecodeFrom(table: seq<string>, g: Grid, d: Dense, k: nat, id: int, lat: int, lon: int, i: nat): seq<Node>
    requires k <= |d.ids| && |d.ids| <= |d.lats| && |d.ids| <= |d.lons|
    requires Safe(table, d.keysVals, i, |d.ids| - k)
    decreases |d.ids| - k
  {
    if k == |d.ids| then []
    else
      var id', lat', lon' := id + d.ids[k], lat + d.lats[k], lon + d.lons[k];
      [Node(id', g.Lat(lat'), g.Lon(lon'), RunTags(table, map[], d.keysVals, i))]
      + DecodeFrom(table, g, d, k + 1, id', lat', lon', RunEnd(table, d.keysVals, i).value + 1)
  }

  /** From position k on, the running sums stay in the 64-bit range; signed overflow is undefined. */
  predicate InRange(g: Grid, d: Dense, k: nat, id: int, lat: int, lon: int)
    requires k <= |d.ids| && |d.ids| <= |d.lats| && |d.ids| <= |d.lons|
    decreases |d.ids| - k
  {
    k == |d.ids|
    || (g.Holds(id + d.ids[k], lat + d.lats[k], lon + d.lons[k])
        && InRange(g, d, k + 1, id + d.ids[k], lat + d.lats[k], lon + d.lons[k]))
  }

  /** The tag loop of one node. */
  method ReadTags(table: seq<string>, kv: seq<nat>, start: nat) returns (tags: Tags, kvIdx: nat)
    requires RunEnd(table, kv, start).Some?
    ensures kvIdx == RunEnd(table, kv, start).value && tags == RunTags(table, map[], kv, start)
  {
    tags, kvIdx := map[], start;
    while kvIdx < |kv| && kv[kvIdx] != 0
      invariant RunEnd(table, kv, kvIdx) == RunEnd(table, kv, start)
      invariant RunTags(table, tags, kv, kvIdx) == RunTags(table, map[], kv, start)
      decreases |kv| - kvIdx
    {
      tags := tags[table[kv[kvIdx]] := table[kv[kvIdx + 1]]];
      kvIdx := kvIdx + 2;
    }
  }

  lemma DecodeNext(table: seq<string>, g: Grid, d: Dense, k: nat, id: int, lat: int, lon: int, i: nat)
    requires k < |d.ids| && |d.ids| <= |d.lats| && |d.ids| <= |d.lons|
    requires Safe(table, d.keysVals, i, |d.ids| - k)
    ensures RunEnd(table, d.keysVals, i).Some?
    ensures Safe(table, d.keysVals, RunEnd(table, d.keysVals, i).value + 1, |d.ids| - (k + 1))
    ensures var id', lat', lon' := id + d.ids[k], lat + d.lats[k], lon + d.lons[k];
            DecodeFrom(table, g, d, k, id, lat, lon, i)
            == [Node(id', g.Lat(lat'), g.Lon(lon'), RunTags(table, map[], d.keysVals, i))]
               + DecodeFrom(table, g, d, k + 1, id', lat', lon', RunEnd(table, d.keysVals, i).value + 1)
  {
    hide RunTags, RunEnd;
  }

  lemma DecodeEnd(table: seq<string>, g: Grid, d: Dense, id: int, lat: int, lon: int, i: nat)
    requires |d.ids| <= |d.lats| && |d.ids| <= |d.lons|
    ensures Safe(table, d.keysVals, i, 0) && DecodeFrom(table, g, d, |d.ids|, id, lat, lon, i) == []
  {
  }

  lemma SumsHead(acc: int, ds: seq<int>, k: nat, m: nat)
    requires k < |ds| && m < |ds| - k
    ensures Sums(acc, ds[k..])[m] == if m == 0 then acc + ds[k] else Sums(acc + ds[k], ds[k + 1..])[m - 1]
  {
    assert ds[k..][1..] == ds[k + 1..];
  }

  lemma {:induction false} DecodeLength(table: seq<string>, g: Grid, d: Dense, k: nat, id: int, lat: int, lon: int,
                                        i: nat)
    requires k <= |d.ids| && |d.ids| <= |d.lats| && |d.ids| <= |d.lons|
    requires Safe(table, d.keysVals, i, |d.ids| - k)
    ensures |DecodeFrom(table, g, d, k, id, lat, lon, i)| == |d.ids| - k
    decreases |d.ids| - k
  {
    hide RunTags, RunEnd, Safe;
    if k < |d.ids| {
      DecodeNext(table, g, d, k, id, lat, lon, i);
      DecodeLength(table, g, d, k + 1, id + d.ids[k], lat + d.lats[k], lon + d.lons[k],
                   RunEnd(table, d.keysVals, i).value + 1);
    }
  }

  ghost predicate IsScaled(g: Grid, node: Node, id: int, lat: int, lon: int) {
    && node.id == id && node.lat == g.degrees(g.latOffset + g.granularity * lat)
    && node.lon == g.degrees(g.lonOffset + g.granularity * lon)
  }

  /** Ids and coordinates of any decoded list are running sums, scaled by the granularity from the offset. */
  lemma {:induction false} DecodedAt(table: seq<string>, g: Grid, d: Dense, k: nat, id: int, lat: int, lon: int,
                                     i: nat, n: nat)
    requires k <= n < |d.ids| && |d.ids| <= |d.lats| && |d.ids| <= |d.lons|
    requires Safe(table, d.keysVals, i, |d.ids| - k)
    ensures var out := DecodeFrom(table, g, d, k, id, lat, lon, i);
            && |out| == |d.ids| - k
            && IsScaled(g, out[n - k], Sums(id, d.ids[k..])[n - k], Sums(lat, d.lats[k..])[n - k],
                        Sums(lon, d.lons[k..])[n - k])
    decreases |d.ids| - k
  {
    hide RunTags, RunEnd, Safe, Sums;
    DecodeLength(table, g, d, k, id, lat, lon, i);
    DecodeNext(table, g, d, k, id, lat, lon, i);
    hide DecodeFrom;
    SumsHead(id, d.ids, k, n - k);
    SumsHead(lat, d.lats, k, n - k);
    SumsHead(lon, d.lons, k, n - k);
    if n > k {
      hide IsScaled;
      DecodedAt(table, g, d, k + 1, id + d.ids[k], lat + d.lats[k], lon + d.lons[k],
                RunEnd(table, d.keysVals, i).value + 1, n);
    }
  }

  method ParseDense(table: seq<string>, g: Grid, d: Dense) returns (out: seq<Node>)
    requires |d.ids| <= |d.lats| && |d.ids| <= |d.lons| && Safe(table, d.keysVals, 0, |d.ids|)
    requires InRange(g, d, 0, 0, 0, 0)
    ensures out == DecodeFrom(table, g, d, 0, 0, 0, 0, 0)
  {
    hide RunTags, RunEnd, Safe, DecodeFrom;
    var curId, curLat, curLon, kvIdx := 0, 0, 0, 0;
    var kv := d.keysVals;
    out := [];
    for k := 0 to |d.ids|
      invariant 0 <= kvIdx && Safe(table, kv, kvIdx, |d.ids| - k) && InRange(g, d, k, curId, curLat, curLon)
      invariant out + DecodeFrom(table, g, d, k, curId, curLat, curLon, kvIdx)
                == DecodeFrom(table, g, d, 0, 0, 0, 0, 0)
    {
      DecodeNext(table, g, d, k, curId, curLat, curLon, kvIdx);
      curId := curId + d.ids[k];
      curLat := curLat + d.lats[k];
      curLon := curLon + d.lons[k];
      assert g.Holds(curId, curLat, curLon);
      var lat := g.Lat(curLat);
      var lon := g.Lon(curLon);
      var tags;
      tags, kvIdx := ReadTags(table, kv, kvIdx);
      kvIdx := kvIdx + 1;
      out := out + [Node(curId, lat, lon, tags)];
    }
    DecodeEnd(table, g, d, curId, curLat, curLon, kvIdx);
  }

  // ---- Decoding inverts encoding ----

  /** A run of pairs that starts at index i of the stream and ends in a 0 is read back. */
  lemma {:induction false} RunBack(table: seq<string>, acc: Tags, kv: seq<nat>, i: nat, pairs: seq<(nat, nat)>)
    requires forall p | p in pairs :: 0 < p.0 < |table| && p.1 < |table|
    requires i <= |kv| && EncodePairs(pairs) + [0] <= kv[i..]
    ensures RunEnd(table, kv, i) == Some(i + |EncodePairs(pairs)|)
    ensures RunTags(table, acc, kv, i) == TagMap(table, acc, pairs)
    decreases |pairs|
  {
    var run := EncodePairs(pairs) + [0];
    assert run == kv[i..][..|run|];
    assert forall k | 0 <= k < |run| :: kv[i + k] == run[k];
    if pairs != [] {
      assert pairs[0] in pairs && forall p | p in pairs[1..] :: p in pairs;
      assert run[2..] == EncodePairs(pairs[1..]) + [0];
      assert kv[i] == pairs[0].0 && kv[i + 1] == pairs[0].1;
      assert kv[i + 2..][..|run| - 2] == run[2..];
      RunBack(table, acc[table[pairs[0].0] := table[pairs[0].1]], kv, i + 2, pairs[1..]);
    } else {
      assert kv[i] == run[0] == 0;
    }
  }

  /** From index i on, the stream is the encoding of these nodes, or it was left out. */
  predicate StreamAt(kv: seq<nat>, i: nat, ns: seq<Source>) {
    (i <= |kv| && kv[i..] == EncodeKv(ns)) || (kv == [] && AllUntagged(ns))
  }

  lemma StreamSplit(kv: seq<nat>, i: nat, ns: seq<Source>)
    requires i <= |kv| && kv[i..] == EncodeKv(ns) && ns != []
    ensures var next := i + |EncodePairs(ns[0].tags)| + 1;
            EncodePairs(ns[0].tags) + [0] <= kv[i..] && next <= |kv| && kv[next..] == EncodeKv(ns[1..])
  {
    var run := EncodePairs(ns[0].tags) + [0];
    assert EncodeKv(ns) == run + EncodeKv(ns[1..]);
    assert kv[i..][|run|..] == kv[i + |run|..];
  }

  lemma NodeBack(table: seq<string>, kv: seq<nat>, i: nat, ns: seq<Source>)
    requires Encodable(table, ns) && ns != [] && StreamAt(kv, i, ns)
    ensures (forall p | p in ns[0].tags :: p.0 < |table| && p.1 < |table|) && Encodable(table, ns[1..])
    ensures RunEnd(table, kv, i).Some? && RunTags(table, map[], kv, i) == TagMap(table, map[], ns[0].tags)
    ensures StreamAt(kv, RunEnd(table, kv, i).value + 1, ns[1..])
  {
    hide EncodeKv, EncodePairs;
    assert ns[0] in ns && forall x | x in ns[1..] :: x in ns;
    if i <= |kv| && kv[i..] == EncodeKv(ns) {
      StreamSplit(kv, i, ns);
      RunBack(table, map[], kv, i, ns[0].tags);
    } else {
      assert ns[0].tags == [];
    }
  }

  lemma {:induction false} DecodeBack(table: seq<string>, g: Grid, d: Dense, k: nat, ns: seq<Source>,
                                      id: int, lat: int, lon: int, i: nat)
    requires Encodable(table, ns) && k <= |d.ids| == |d.lats| == |d.lons| && |ns| == |d.ids| - k
    requires d.ids[k..] == Deltas(id, Ids(ns)) && d.lats[k..] == Deltas(lat, Lats(ns))
    requires d.lons[k..] == Deltas(lon, Lons(ns))
    requires StreamAt(d.keysVals, i, ns) && AllHeld(g, ns)
    ensures Safe(table, d.keysVals, i, |ns|) && InRange(g, d, k, id, lat, lon)
    ensures DecodeFrom(table, g, d, k, id, lat, lon, i) == NodesOf(table, g, ns)
    decreases |ns|
  {
    hide TagMap, RunTags, RunEnd, StreamAt, Deltas;
    if ns != [] {
      assert ns[0] in ns && forall n | n in ns[1..] :: n in ns;
      HeadDelta(d.ids, k, id, Ids(ns));
      HeadDelta(d.lats, k, lat, Lats(ns));
      HeadDelta(d.lons, k, lon, Lons(ns));
      assert Ids(ns)[1..] == Ids(ns[1..]) && Lats(ns)[1..] == Lats(ns[1..]) && Lons(ns)[1..] == Lons(ns[1..]);
      NodeBack(table, d.keysVals, i, ns);
      DecodeBack(table, g, d, k + 1, ns[1..], ns[0].id, ns[0].lat, ns[0].lon, RunEnd(table, d.keysVals, i).value + 1);
    }
  }

  lemma HeadDelta(ds: seq<int>, k: nat, prev: int, values: seq<int>)
    requires k <= |ds| && ds[k..] == Deltas(prev, values) && values != []
    ensures k < |ds| && prev + ds[k] == values[0] && ds[k + 1..] == Deltas(values[0], values[1..])
  {
    assert ds[k..][0] == ds[k] && ds[k..][1..] == ds[k + 1..];
  }

  /** Dense decoding gives back every encoded node with its tags; it touches no index out of range, and no sum
      leaves the 64-bit range if the nodes themselves do not. */
  lemma DenseRoundTrip(table: seq<string>, g: Grid, ns: seq<Source>, short: bool)
    requires Encodable(table, ns) && AllHeld(g, ns)
    ensures var d := Encode(ns, short);
            && |d.ids| == |d.lats| == |d.lons| && Safe(table, d.keysVals, 0, |d.ids|)
            && InRange(g, d, 0, 0, 0, 0)
            && DecodeFrom(table, g, d, 0, 0, 0, 0, 0) == NodesOf(table, g, ns)
    ensures forall k | 0 <= k < |ns| :: IsNode(table, g, ns[k], NodesOf(table, g, ns)[k])
  {
    forall k | 0 <= k < |ns| ensures IsNode(table, g, ns[k], NodesOf(table, g, ns)[k]) {
      NodesOfAre(table, g, ns, k);
    }
    hide IsNode, NodesOf;
    var d := Encode(ns, short);
    assert d.ids[0..] == d.ids && d.lats[0..] == d.lats && d.lons[0..] == d.lons && d.keysVals[0..] == d.keysVals;
    DecodeBack(table, g, d, 0, ns, 0, 0, 0, 0);
  }
}
