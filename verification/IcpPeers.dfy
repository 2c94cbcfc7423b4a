/** The peer lists: fixed-size arrays that are built from the configuration and extended when a message
    from an unknown sender comes in. */
module PeerLists {

  const MAX_DEFINED_PEERS := 64
  const LIST_SIZE := 2 * MAX_DEFINED_PEERS

  datatype Option<T> = None | Some(value: T)

  datatype Kind = Local | Parent | Sibling | MultiCast

  datatype Peer = Peer(id: nat, ip: nat, port: nat, kind: Kind)

  /** A configuration entry; kind None: neither parent nor sibling. `group`: the multicast address that it
      is a member of. */
  datatype Entry = Entry(ip: nat, port: nat, kind: Option<Kind>, group: Option<nat>)

  /** `members`: the members of each multicast group, by the address of the group. */
  datatype Lists = Lists(
    peers: seq<Peer>, sends: seq<Peer>, recvs: seq<Peer>, parents: seq<Peer>, members: map<(nat, nat), seq<Peer>>)

  const EMPTY := Lists([], [], [], [], map[])

  /** Port 0 asks for any port. */
  predicate Matches(p: Peer, ip: nat, port: nat) {
    p.ip == ip && (port == 0 || p.port == port)
  }

  predicate Listed(list: seq<Peer>, ip: nat, port: nat) {
    exists i :: 0 <= i < |list| && Matches(list[i], ip, port)
  }

  function Find(list: seq<Peer>, ip: nat, port: nat): (r: Option<Peer>)
    ensures r.Some? <==> Listed(list, ip, port)
    ensures r.Some? ==> r.value in list && Matches(r.value, ip, port)
  {
    if list == [] then None
    else if Matches(list[0], ip, port) then Some(list[0])
    else
      assert forall i :: 0 < i < |list| ==> list[i] == list[1..][i - 1];
      Find(list[1..], ip, port)
  }

  function Append(list: seq<Peer>, p: Peer): seq<Peer> {
    if |list| < LIST_SIZE then list + [p] else list
  }

  predicate CanAdd(peers: seq<Peer>, ip: nat, port: nat) {
    !Listed(peers, ip, port) && |peers| < LIST_SIZE
  }

  /** A peer that is added gets its index as its id; one that is not keeps the id 0 of a new peer. */
  function Numbered(peers: seq<Peer>, ip: nat, port: nat, kind: Kind): Peer {
    Peer(if CanAdd(peers, ip, port) then |peers| else 0, ip, port, kind)
  }

  function Add(l: Lists, ip: nat, port: nat, kind: Kind): Lists {
    if CanAdd(l.peers, ip, port) then l.(peers := l.peers + [Numbered(l.peers, ip, port, kind)]) else l
  }

  /** A new group has no members. */
  function AddGroup(l: Lists, group: nat, port: nat): Lists {
    if Find(l.peers, group, port).Some? then l
    else
      var m := Numbered(l.peers, group, port, MultiCast);
      var l' := Add(l, group, port, MultiCast);
      l'.(sends := Append(l'.sends, m), recvs := Append(l'.recvs, m), members := l'.members[(group, port) := []])
  }

  /** The address of the group that is found, or new. */
  function GroupAt(l: Lists, group: nat, port: nat): (nat, nat) {
    var r := Find(l.peers, group, port);
    if r.Some? then (r.value.ip, r.value.port) else (group, port)
  }

  function Members(l: Lists, key: (nat, nat)): seq<Peer> {
    if key in l.members then l.members[key] else []
  }

  /** The members of a group are linked from the newest on; a second one at an address is refused. */
  function AddChild(l: Lists, key: (nat, nat), p: Peer): Lists {
    if Find(Members(l, key), p.ip, p.port).Some? then l
    else l.(members := l.members[key := [p] + Members(l, key)])
  }

  predicate Ignored(e: Entry, localIp: nat) {
    e.ip == localIp || !(e.kind == Some(Parent) || e.kind == Some(Sibling))
  }

  /** Lists the entry's multicast group if it is new, then the entry's own peer. The member of a group is
      not itself a target of queries. */
  function AddEntry(l: Lists, e: Entry, localIp: nat): Lists {
    if Ignored(e, localIp) then l
    else
      var l1 := if e.group.Some? then AddGroup(l, e.group.value, e.port) else l;
      var p := Numbered(l1.peers, e.ip, e.port, e.kind.value);
      var l2 := Add(l1, e.ip, e.port, e.kind.value);
      var l3 := if e.group.Some? then AddChild(l2, GroupAt(l, e.group.value, e.port), p)
                else l2.(sends := Append(l2.sends, p));
      if e.kind == Some(Parent) then l3.(parents := Append(l3.parents, p)) else l3
  }

  function AddEntries(l: Lists, entries: seq<Entry>, localIp: nat): Lists {
    if entries == [] then l
    else AddEntry(AddEntries(l, entries[..|entries| - 1], localIp), entries[|entries| - 1], localIp)
  }

  function AddLocal(l: Lists, localIp: nat, localPort: nat): Lists {
    var p := Numbered(l.peers, localIp, localPort, Local);
    var l' := Add(l, localIp, localPort, Local);
    l'.(recvs := Append(l'.recvs, p))
  }

  /** The local peer first, then the entries 1 .. 63 of the configuration. */
  function Build(l: Lists, entries: seq<Entry>, localIp: nat, localPort: nat): Lists {
    AddEntries(AddLocal(l, localIp, localPort), entries, localIp)
  }

  /** The sender of a message, unless only the local peer has its address. */
  predicate Known(l: Lists, ip: nat) {
    Find(l.peers, ip, 0).Some? && !Find(l.peers, ip, 0).value.kind.Local?
  }

  function AddUnknown(l: Lists, ip: nat, port: nat): Lists {
    if |l.peers| == LIST_SIZE || |l.sends| == LIST_SIZE then l
    else
      var p := Numbered(l.peers, ip, port, Sibling);
      var l' := Add(l, ip, port, Sibling);
      l'.(sends := Append(l'.sends, p))
  }

  // ----- what every run keeps

  predicate IdsAreIndices(peers: seq<Peer>) {
    forall i :: 0 <= i < |peers| ==> peers[i].id == i
  }

  predicate AddressesDistinct(peers: seq<Peer>) {
    forall i, j :: 0 <= i < j < |peers| ==> (peers[i].ip, peers[i].port) != (peers[j].ip, peers[j].port)
  }

  predicate Sound(l: Lists) {
    && IdsAreIndices(l.peers) && AddressesDistinct(l.peers)
    && |l.peers| <= LIST_SIZE && |l.sends| <= LIST_SIZE && |l.recvs| <= LIST_SIZE && |l.parents| <= LIST_SIZE
  }

  lemma AddKeepsSound(l: Lists, ip: nat, port: nat, kind: Kind)
    requires Sound(l)
    ensures Sound(Add(l, ip, port, kind)) && |Add(l, ip, port, kind).peers| <= |l.peers| + 1
  {
  }

  lemma EntryKeepsSound(l: Lists, e: Entry, localIp: nat)
    requires Sound(l)
    ensures Sound(AddEntry(l, e, localIp)) && |AddEntry(l, e, localIp).peers| <= |l.peers| + 2
  {
    if !Ignored(e, localIp) {
      var l1 := l;
      if e.group.Some? {
        l1 := AddGroup(l, e.group.value, e.port);
        GroupKeepsSound(l, e.group.value, e.port);
      }
      AddKeepsSound(l1, e.ip, e.port, e.kind.value);
    }
  }

  lemma GroupKeepsSound(l: Lists, group: nat, port: nat)
    requires Sound(l)
    ensures Sound(AddGroup(l, group, port)) && |AddGroup(l, group, port).peers| <= |l.peers| + 1
  {
    AddKeepsSound(l, group, port, MultiCast);
  }

  lemma {:induction false} EntriesKeepSound(l: Lists, entries: seq<Entry>, localIp: nat)
    requires Sound(l)
    ensures Sound(AddEntries(l, entries, localIp)) &&
            |AddEntries(l, entries, localIp).peers| <= |l.peers| + 2 * |entries|
  {
    if entries != [] {
      EntriesKeepSound(l, entries[..|entries| - 1], localIp);
      EntryKeepsSound(AddEntries(l, entries[..|entries| - 1], localIp), entries[|entries| - 1], localIp);
    }
  }

  datatype Op =
    | Free
    | BuildList(entries: seq<Entry>, localIp: nat, localPort: nat)
    | Unknown(ip: nat, port: nat)

  function Apply(l: Lists, op: Op): Lists {
    match op
    case Free => EMPTY
    case BuildList(entries, ip, port) => Build(l, entries, ip, port)
    case Unknown(ip, port) => AddUnknown(l, ip, port)
  }

  function Run(l: Lists, ops: seq<Op>): Lists
    decreases |ops|
  {
    if ops == [] then l else Run(Apply(l, ops[0]), ops[1..])
  }

  /** Across any run each listed peer's id is its index, and no two have the same address. */
  lemma {:induction false} RunKeepsSound(l: Lists, ops: seq<Op>)
    requires Sound(l)
    ensures Sound(Run(l, ops))
    decreases |ops|
  {
    if ops != [] {
      match ops[0] {
        case Free =>
        case BuildList(entries, ip, port) =>
          AddKeepsSound(l, ip, port, Local);
          EntriesKeepSound(AddLocal(l, ip, port), entries, ip);
        case Unknown(ip, port) => AddKeepsSound(l, ip, port, Sibling);
      }
      RunKeepsSound(Apply(l, ops[0]), ops[1..]);
    }
  }

  /** Whatever the 63 entries, a build of freed lists needs at most 127 of the 128 places; so no peer is
      ever turned away for lack of room, only because its address is listed. */
  lemma BuildHasRoom(entries: seq<Entry>, localIp: nat, localPort: nat, k: nat)
    requires k <= |entries| == MAX_DEFINED_PEERS - 1
    ensures var l := Build(EMPTY, entries[..k], localIp, localPort);
            |l.peers| <= 1 + 2 * k <= 127 < LIST_SIZE
  {
    AddKeepsSound(EMPTY, localIp, localPort, Local);
    EntriesKeepSound(AddLocal(EMPTY, localIp, localPort), entries[..k], localIp);
  }

  // ----- entries with distinct addresses

  /** A peer that an entry brings in: its own, and its group's. */
  predicate Brings(e: Entry, p: Peer) {
    p.port == e.port
    && if p.kind.MultiCast? then e.group == Some(p.ip) else e.ip == p.ip && e.kind == Some(p.kind)
  }

  /** Ports are given, no two entries have the same own address, and no own address is a group's. */
  predicate DistinctEntries(entries: seq<Entry>, localIp: nat) {
    && (forall i :: 0 <= i < |entries| ==> entries[i].port > 0 && entries[i].group != Some(localIp))
    && (forall i, j :: 0 <= i < j < |entries| ==> (entries[i].ip, entries[i].port) != (entries[j].ip, entries[j].port))
    && (forall i, j :: 0 <= i < |entries| && 0 <= j < |entries| ==> entries[i].group != Some(entries[j].ip))
  }

  /** Either it is the local peer, or an entry brings it in. */
  ghost predicate FromEntry(p: Peer, entries: seq<Entry>, localIp: nat) {
    if p.kind.Local? then p.ip == localIp
    else exists i :: 0 <= i < |entries| && !Ignored(entries[i], localIp) && Brings(entries[i], p)
  }

  ghost predicate FromEntries(l: Lists, entries: seq<Entry>, localIp: nat) {
    forall p {:trigger FromEntry(p, entries, localIp)} :: p in l.peers ==> FromEntry(p, entries, localIp)
  }

  predicate OwnPeer(e: Entry, p: Peer) {
    p.ip == e.ip && p.port == e.port && Some(p.kind) == e.kind
  }

  /** The group is itself a target of queries. */
  ghost predicate GroupSent(l: Lists, key: (nat, nat)) {
    exists m :: m in l.sends && m.kind.MultiCast? && (m.ip, m.port) == key
  }

  /** The entry's peer is listed, as a target of queries or as a member of a group that is one. */
  ghost predicate EntryListed(l: Lists, e: Entry) {
    exists p :: p in l.peers && OwnPeer(e, p)
                && if e.group.None? then p in l.sends
                   else var key := (e.group.value, e.port); GroupSent(l, key) && p in Members(l, key)
  }

  ghost predicate Grows(l: Lists, l': Lists) {
    && (forall p :: p in l.peers ==> p in l'.peers) && (forall p :: p in l.sends ==> p in l'.sends)
    && (forall key, p :: p in Members(l, key) ==> p in Members(l', key))
  }

  lemma ListedGrows(l: Lists, l': Lists, e: Entry)
    requires EntryListed(l, e) && Grows(l, l')
    ensures EntryListed(l', e)
  {
  }

  /** The next of distinct entries is not listed yet, so its peer is added. */
  lemma OwnIsNew(l: Lists, entries: seq<Entry>, localIp: nat)
    requires entries != [] && DistinctEntries(entries, localIp)
    requires FromEntries(l, entries[..|entries| - 1], localIp) && entries[|entries| - 1].ip != localIp
    ensures !Listed(l.peers, entries[|entries| - 1].ip, entries[|entries| - 1].port)
  {
    var e := entries[|entries| - 1];
    forall i | 0 <= i < |l.peers|
      ensures !Matches(l.peers[i], e.ip, e.port)
    {
      var p := l.peers[i];
      assert FromEntry(p, entries[..|entries| - 1], localIp);
    }
  }

  /** The peers to be queried are listed, and no two have the same id. */
  ghost predicate SendsNumbered(l: Lists) {
    && |l.sends| <= |l.peers|
    && (forall i :: 0 <= i < |l.sends| ==> l.sends[i].id < |l.peers| && l.peers[l.sends[i].id] == l.sends[i])
    && (forall i, j :: 0 <= i < j < |l.sends| ==> l.sends[i].id < l.sends[j].id)
  }

  ghost predicate Numbers(l: Lists, p: Peer) {
    p.id < |l.peers| && l.peers[p.id] == p
  }

  ghost predicate MembersListed(l: Lists) {
    forall key, p :: key in l.members && p in l.members[key] ==> Numbers(l, p) && p !in l.sends
  }

  ghost predicate MemberOnce(l: Lists) {
    forall key, i, j :: key in l.members && 0 <= i < j < |l.members[key]| ==> l.members[key][i] != l.members[key][j]
  }

  ghost predicate OneGroup(l: Lists) {
    forall key, key', p :: key in l.members && key' in l.members && p in l.members[key] && p in l.members[key'] ==>
      key == key'
  }

  /** The members of each group are listed too, and each peer is in one place only: it is a target itself,
      or a member of one group. */
  ghost predicate Assigned(l: Lists) {
    SendsNumbered(l) && MembersListed(l) && MemberOnce(l) && OneGroup(l)
  }

  lemma OneMore(list: seq<Peer>, p: Peer)
    ensures forall q :: q in list + [p] <==> q in list || q == p
  {
  }

  lemma NewSend(l: Lists, l': Lists, p: Peer)
    requires Assigned(l) && p.id == |l.peers| && l'.peers == l.peers + [p] && l'.sends == l.sends + [p]
    requires forall key :: Members(l', key) == Members(l, key)
    ensures Assigned(l') && Grows(l, l')
  {
    assert forall key :: key in l'.members && l'.members[key] != [] ==> Members(l, key) == l'.members[key];
    OneMore(l.peers, p);
    OneMore(l.sends, p);
    assert forall q :: Numbers(l, q) ==> Numbers(l', q) && q != p;
  }

  lemma NewMember(l: Lists, l': Lists, p: Peer, key: (nat, nat))
    requires Assigned(l) && p.id == |l.peers| && l'.peers == l.peers + [p] && l'.sends == l.sends
    requires key in l.members && l'.members == l.members[key := [p] + l.members[key]]
    ensures Assigned(l')
  {
    assert forall q :: Numbers(l, q) ==> Numbers(l', q) && q != p;
    NewIsUnsent(l, p);
    forall k, k', q | k in l'.members && k' in l'.members && q in l'.members[k] && q in l'.members[k']
      ensures k == k'
    {
      if q != p {
        assert q in l.members[k] && q in l.members[k'];
      }
    }
  }

  lemma NewIsUnsent(l: Lists, p: Peer)
    requires Assigned(l) && p.id == |l.peers|
    ensures p !in l.sends && forall key :: key in l.members ==> p !in l.members[key]
  {
    forall key | key in l.members
      ensures p !in l.members[key]
    {
      assert !Numbers(l, p);
    }
  }

  /** The number of entries that bring in a peer of their own. */
  function Own(entries: seq<Entry>, localIp: nat): nat {
    if entries == [] then 0
    else Own(entries[..|entries| - 1], localIp) + if Ignored(entries[|entries| - 1], localIp) then 0 else 1
  }

  /** The groups that they bring in. */
  function Groups(entries: seq<Entry>, localIp: nat): set<(nat, nat)> {
    set e | e in entries && !Ignored(e, localIp) && e.group.Some? :: (e.group.value, e.port)
  }

  lemma GroupsNext(entries: seq<Entry>, localIp: nat)
    requires entries != []
    ensures var n := |entries| - 1;
            var e := entries[n];
            Groups(entries, localIp)
            == Groups(entries[..n], localIp)
               + if !Ignored(e, localIp) && e.group.Some? then {(e.group.value, e.port)} else {}
  {
    assert entries == entries[..|entries| - 1] + [entries[|entries| - 1]];
  }

  ghost predicate AllListed(l: Lists, entries: seq<Entry>, localIp: nat) {
    forall i {:trigger EntryListed(l, entries[i])} ::
      0 <= i < |entries| && !Ignored(entries[i], localIp) ==> EntryListed(l, entries[i])
  }

  /** The groups are those of the entries, and targets of queries. */
  ghost predicate GroupsTracked(l: Lists, entries: seq<Entry>, localIp: nat) {
    l.members.Keys == Groups(entries, localIp) && forall key :: key in l.members ==> GroupSent(l, key)
  }

  /** The local peer, one for each entry that is not ignored, one for each group. */
  function Total(entries: seq<Entry>, localIp: nat): nat {
    1 + Own(entries, localIp) + |Groups(entries, localIp)|
  }

  /** The last of the peers is not a group. */
  predicate EndsInOwn(peers: seq<Peer>) {
    |peers| > 1 ==> peers[|peers| - 1].kind.Parent? || peers[|peers| - 1].kind.Sibling?
  }

  /** What the lists are after some distinct entries. */
  ghost predicate Tracks(l: Lists, entries: seq<Entry>, localIp: nat) {
    && Assigned(l) && FromEntries(l, entries, localIp) && AllListed(l, entries, localIp)
    && GroupsTracked(l, entries, localIp) && |l.peers| == Total(entries, localIp)
  }

  /** The next entry's group is found exactly if an earlier entry brought it. */
  lemma GroupIsFound(l: Lists, entries: seq<Entry>, localIp: nat, group: nat, port: nat)
    requires entries != [] && DistinctEntries(entries, localIp) && Tracks(l, entries[..|entries| - 1], localIp)
    requires entries[|entries| - 1].group == Some(group) && entries[|entries| - 1].port == port
    ensures Find(l.peers, group, port).Some? <==> (group, port) in l.members
    ensures GroupAt(l, group, port) == (group, port)
  {
    var r := Find(l.peers, group, port);
    if r.Some? {
      var p := r.value;
      assert FromEntry(p, entries[..|entries| - 1], localIp);
      assert p.ip == group && p.port == port && p.kind.MultiCast?;
    }
    if (group, port) in l.members {
      var m :| m in l.sends && m.kind.MultiCast? && (m.ip, m.port) == (group, port);
      assert Matches(l.peers[m.id], group, port);
    }
  }

  lemma StaysFrom(l: Lists, l': Lists, entries: seq<Entry>, localIp: nat)
    requires entries != [] && FromEntries(l, entries[..|entries| - 1], localIp)
    requires forall p :: p in l'.peers && p !in l.peers ==> Brings(entries[|entries| - 1], p) && !p.kind.Local?
    requires l'.peers != l.peers ==> !Ignored(entries[|entries| - 1], localIp)
    ensures FromEntries(l', entries, localIp)
  {
    var n := |entries| - 1;
    forall p | p in l'.peers
      ensures FromEntry(p, entries, localIp)
    {
      assert p in l.peers ==> FromEntry(p, entries[..n], localIp);
      if p in l.peers && !p.kind.Local? {
        var i :| 0 <= i < n && !Ignored(entries[..n][i], localIp) && Brings(entries[..n][i], p);
        assert entries[i] == entries[..n][i];
      }
    }
  }

  lemma StayListed(l: Lists, l': Lists, entries: seq<Entry>, localIp: nat)
    requires entries != [] && AllListed(l, entries[..|entries| - 1], localIp) && Grows(l, l')
    requires !Ignored(entries[|entries| - 1], localIp) ==> EntryListed(l', entries[|entries| - 1])
    ensures AllListed(l', entries, localIp)
  {
    var n := |entries| - 1;
    forall i | 0 <= i < n && !Ignored(entries[i], localIp)
      ensures EntryListed(l', entries[i])
    {
      assert EntryListed(l, entries[..n][i]);
      ListedGrows(l, l', entries[i]);
    }
  }

  lemma UnicastShape(l: Lists, e: Entry, localIp: nat)
    requires !Ignored(e, localIp) && e.group.None? && !Listed(l.peers, e.ip, e.port)
    requires |l.sends| <= |l.peers| < LIST_SIZE
    ensures var l', p := AddEntry(l, e, localIp), Peer(|l.peers|, e.ip, e.port, e.kind.value);
            l'.peers == l.peers + [p] && l'.sends == l.sends + [p] && l'.members == l.members
  {
  }

  lemma UnicastTracked(l: Lists, l': Lists, entries: seq<Entry>, localIp: nat, p: Peer)
    requires entries != [] && Tracks(l, entries[..|entries| - 1], localIp)
    requires !Ignored(entries[|entries| - 1], localIp) && entries[|entries| - 1].group.None?
    requires OwnPeer(entries[|entries| - 1], p) && p.id == |l.peers|
    requires l'.peers == l.peers + [p] && l'.sends == l.sends + [p] && l'.members == l.members
    ensures Tracks(l', entries, localIp)
  {
    NewSend(l, l', p);
    EntriesStay(l, l', entries, localIp, p);
    GroupsNext(entries, localIp);
    GroupsStay(l, l', entries, localIp);
  }

  lemma EntriesStay(l: Lists, l': Lists, entries: seq<Entry>, localIp: nat, p: Peer)
    requires entries != [] && FromEntries(l, entries[..|entries| - 1], localIp)
    requires AllListed(l, entries[..|entries| - 1], localIp) && Grows(l, l')
    requires !Ignored(entries[|entries| - 1], localIp) && entries[|entries| - 1].group.None?
    requires OwnPeer(entries[|entries| - 1], p) && l'.peers == l.peers + [p] && l'.sends == l.sends + [p]
    ensures FromEntries(l', entries, localIp) && AllListed(l', entries, localIp)
  {
    OneMore(l.peers, p);
    StaysFrom(l, l', entries, localIp);
    SentIsListed(l', entries[|entries| - 1], p);
    StayListed(l, l', entries, localIp);
  }

  lemma SentIsListed(l: Lists, e: Entry, p: Peer)
    requires p in l.peers && OwnPeer(e, p)
    requires if e.group.None? then p in l.sends
             else var key := (e.group.value, e.port); GroupSent(l, key) && p in Members(l, key)
    ensures EntryListed(l, e)
  {
  }

  lemma GroupsStay(l: Lists, l': Lists, entries: seq<Entry>, localIp: nat)
    requires l'.members.Keys == l.members.Keys == Groups(entries, localIp)
    requires (forall key :: key in l.members ==> GroupSent(l, key)) && forall p :: p in l.sends ==> p in l'.sends
    ensures GroupsTracked(l', entries, localIp)
  {
  }

  lemma GroupShape(l: Lists, group: nat, port: nat)
    requires Find(l.peers, group, port).None? && |l.sends| <= |l.peers| < LIST_SIZE
    ensures var l', m := AddGroup(l, group, port), Peer(|l.peers|, group, port, MultiCast);
            l'.peers == l.peers + [m] && l'.sends == l.sends + [m] && l'.members == l.members[(group, port) := []]
  {
  }

  /** The lists while an entry's group is in them and its own peer is not yet. */
  ghost predicate GroupIsIn(l: Lists, l1: Lists, entries: seq<Entry>, localIp: nat, key: (nat, nat))
    requires entries != []
  {
    && Grows(l, l1) && Assigned(l1) && key in l1.members && GroupsTracked(l1, entries, localIp)
    && |l1.peers| + 1 == Total(entries, localIp) && |l1.peers| <= |l.peers| + 1
    && (forall p :: p in l1.peers && p !in l.peers ==> Brings(entries[|entries| - 1], p) && p.kind.MultiCast?)
  }

  lemma GroupStays(l: Lists, entries: seq<Entry>, localIp: nat, key: (nat, nat))
    requires entries != [] && Tracks(l, entries[..|entries| - 1], localIp) && key in l.members
    requires var e := entries[|entries| - 1];
             !Ignored(e, localIp) && e.group == Some(key.0) && e.port == key.1
    ensures GroupIsIn(l, l, entries, localIp, key)
  {
    GroupsNext(entries, localIp);
  }

  lemma GroupComes(l: Lists, l1: Lists, entries: seq<Entry>, localIp: nat, key: (nat, nat), m: Peer)
    requires entries != [] && Tracks(l, entries[..|entries| - 1], localIp) && key !in l.members
    requires var e := entries[|entries| - 1];
             !Ignored(e, localIp) && e.group == Some(key.0) && e.port == key.1
    requires m == Peer(|l.peers|, key.0, key.1, MultiCast)
    requires l1.peers == l.peers + [m] && l1.sends == l.sends + [m] && l1.members == l.members[key := []]
    ensures GroupIsIn(l, l1, entries, localIp, key)
  {
    NewSend(l, l1, m);
    OneMore(l.peers, m);
    GroupsNext(entries, localIp);
    GroupIsSent(l, l1, key, m);
    assert key !in Groups(entries[..|entries| - 1], localIp);
  }

  lemma GroupIsSent(l: Lists, l1: Lists, key: (nat, nat), m: Peer)
    requires forall k :: k in l.members ==> GroupSent(l, k)
    requires l1.sends == l.sends + [m] && l1.members == l.members[key := []]
    requires m.kind.MultiCast? && (m.ip, m.port) == key
    ensures l1.members.Keys == l.members.Keys + {key} && forall k :: k in l1.members ==> GroupSent(l1, k)
  {
    forall k | k in l1.members
      ensures GroupSent(l1, k)
    {
      if k == key {
        assert m in l1.sends;
      } else {
        var g :| g in l.sends && g.kind.MultiCast? && (g.ip, g.port) == k;
        assert g in l1.sends;
      }
    }
  }

  lemma MemberShape(l: Lists, e: Entry, localIp: nat, key: (nat, nat), l1: Lists)
    requires !Ignored(e, localIp) && e.group == Some(key.0) && e.port == key.1
    requires l1 == AddGroup(l, key.0, key.1) && GroupAt(l, key.0, key.1) == key && key in l1.members
    requires !Listed(l1.peers, e.ip, e.port) && |l1.peers| < LIST_SIZE
    requires Find(l1.members[key], e.ip, e.port).None?
    ensures var l', p := AddEntry(l, e, localIp), Peer(|l1.peers|, e.ip, e.port, e.kind.value);
            && l'.peers == l1.peers + [p] && l'.sends == l1.sends
            && l'.members == l1.members[key := [p] + l1.members[key]]
  {
  }

  lemma MemberTracked(l: Lists, l1: Lists, l': Lists, entries: seq<Entry>, localIp: nat, key: (nat, nat), p: Peer)
    requires entries != [] && Tracks(l, entries[..|entries| - 1], localIp)
    requires var e := entries[|entries| - 1];
             !Ignored(e, localIp) && e.group == Some(key.0) && e.port == key.1 && OwnPeer(e, p)
    requires GroupIsIn(l, l1, entries, localIp, key) && p.id == |l1.peers|
    requires l'.peers == l1.peers + [p] && l'.sends == l1.sends
    requires l'.members == l1.members[key := [p] + l1.members[key]]
    ensures Tracks(l', entries, localIp)
  {
    NewMember(l1, l', p, key);
    GrowsOn(l, l1, l', p, key);
    GroupsStay(l1, l', entries, localIp);
    MembersStay(l, l1, l', entries, localIp, key, p);
  }

  lemma MembersStay(l: Lists, l1: Lists, l': Lists, entries: seq<Entry>, localIp: nat, key: (nat, nat), p: Peer)
    requires entries != [] && FromEntries(l, entries[..|entries| - 1], localIp)
    requires AllListed(l, entries[..|entries| - 1], localIp) && Grows(l, l')
    requires var e := entries[|entries| - 1];
             !Ignored(e, localIp) && e.group == Some(key.0) && e.port == key.1 && OwnPeer(e, p)
    requires forall q :: q in l1.peers && q !in l.peers ==> Brings(entries[|entries| - 1], q) && q.kind.MultiCast?
    requires l'.peers == l1.peers + [p] && GroupSent(l', key) && p in Members(l', key)
    ensures FromEntries(l', entries, localIp) && AllListed(l', entries, localIp)
  {
    OneMore(l1.peers, p);
    StaysFrom(l, l', entries, localIp);
    SentIsListed(l', entries[|entries| - 1], p);
    StayListed(l, l', entries, localIp);
  }

  lemma GrowsOn(l: Lists, l1: Lists, l': Lists, p: Peer, key: (nat, nat))
    requires Grows(l, l1) && l'.peers == l1.peers + [p] && l'.sends == l1.sends
    requires key in l1.members && l'.members == l1.members[key := [p] + l1.members[key]]
    ensures Grows(l, l') && p in Members(l', key) && l'.members.Keys == l1.members.Keys
  {
    assert p in [p] + l1.members[key];
    forall k, q | q in Members(l, k)
      ensures q in Members(l', k)
    {
      assert q in Members(l1, k);
    }
  }

  lemma OwnStaysNew(l: Lists, l1: Lists, e: Entry)
    requires !Listed(l.peers, e.ip, e.port) && e.group.Some? && e.group != Some(e.ip)
    requires forall p :: p in l1.peers && p !in l.peers ==> Brings(e, p) && p.kind.MultiCast?
    ensures !Listed(l1.peers, e.ip, e.port)
  {
    forall i | 0 <= i < |l1.peers|
      ensures !Matches(l1.peers[i], e.ip, e.port)
    {
      var p := l1.peers[i];
      assert p in l1.peers;
      if p in l.peers {
        var j :| 0 <= j < |l.peers| && l.peers[j] == p;
        assert !Matches(l.peers[j], e.ip, e.port);
      }
    }
  }

  lemma NoSecondChild(l: Lists, e: Entry, key: (nat, nat))
    requires Assigned(l) && !Listed(l.peers, e.ip, e.port) && key in l.members
    ensures Find(l.members[key], e.ip, e.port).None?
  {
    var list := l.members[key];
    forall i | 0 <= i < |list|
      ensures !Matches(list[i], e.ip, e.port)
    {
      assert list[i] in list && Numbers(l, list[i]);
      assert !Matches(l.peers[list[i].id], e.ip, e.port);
    }
  }

  lemma MemberAdded(l: Lists, entries: seq<Entry>, localIp: nat, e: Entry, key: (nat, nat))
    requires entries != [] && DistinctEntries(entries, localIp) && |l.peers| + 2 <= LIST_SIZE
    requires Tracks(l, entries[..|entries| - 1], localIp) && e == entries[|entries| - 1]
    requires !Ignored(e, localIp) && e.group == Some(key.0) && e.port == key.1
    ensures Tracks(AddEntry(l, e, localIp), entries, localIp) && EndsInOwn(AddEntry(l, e, localIp).peers)
  {
    GroupIsFound(l, entries, localIp, key.0, key.1);
    OwnIsNew(l, entries, localIp);
    if key in l.members {
      GroupStays(l, entries, localIp, key);
      OwnAdded(l, l, entries, localIp, e, key);
    } else {
      var l1 := AddGroup(l, key.0, key.1);
      GroupShape(l, key.0, key.1);
      GroupComes(l, l1, entries, localIp, key, Peer(|l.peers|, key.0, key.1, MultiCast));
      OwnAdded(l, l1, entries, localIp, e, key);
    }
  }

  lemma OwnAdded(l: Lists, l1: Lists, entries: seq<Entry>, localIp: nat, e: Entry, key: (nat, nat))
    requires entries != [] && |l1.peers| < LIST_SIZE && !Listed(l.peers, e.ip, e.port) && e.group != Some(e.ip)
    requires Tracks(l, entries[..|entries| - 1], localIp) && e == entries[|entries| - 1]
    requires !Ignored(e, localIp) && e.group == Some(key.0) && e.port == key.1
    requires l1 == AddGroup(l, key.0, key.1) && GroupAt(l, key.0, key.1) == key
    requires GroupIsIn(l, l1, entries, localIp, key)
    ensures Tracks(AddEntry(l, e, localIp), entries, localIp) && EndsInOwn(AddEntry(l, e, localIp).peers)
  {
    OwnStaysNew(l, l1, e);
    NoSecondChild(l1, e, key);
    MemberShape(l, e, localIp, key, l1);
    var p := Peer(|l1.peers|, e.ip, e.port, e.kind.value);
    MemberTracked(l, l1, AddEntry(l, e, localIp), entries, localIp, key, p);
  }

  lemma IgnoredTracked(l: Lists, entries: seq<Entry>, localIp: nat)
    requires entries != [] && Tracks(l, entries[..|entries| - 1], localIp)
    requires Ignored(entries[|entries| - 1], localIp)
    ensures Tracks(l, entries, localIp)
  {
    IgnoredStay(l, entries, localIp);
    GroupsNext(entries, localIp);
  }

  lemma IgnoredStay(l: Lists, entries: seq<Entry>, localIp: nat)
    requires entries != [] && FromEntries(l, entries[..|entries| - 1], localIp)
    requires AllListed(l, entries[..|entries| - 1], localIp) && Ignored(entries[|entries| - 1], localIp)
    ensures FromEntries(l, entries, localIp) && AllListed(l, entries, localIp)
  {
    StaysFrom(l, l, entries, localIp);
    StayListed(l, l, entries, localIp);
  }

  lemma NextTracked(l: Lists, entries: seq<Entry>, localIp: nat, e: Entry)
    requires entries != [] && DistinctEntries(entries, localIp) && |l.peers| + 2 <= LIST_SIZE
    requires Tracks(l, entries[..|entries| - 1], localIp) && e == entries[|entries| - 1]
    ensures Tracks(AddEntry(l, e, localIp), entries, localIp)
    ensures EndsInOwn(l.peers) ==> EndsInOwn(AddEntry(l, e, localIp).peers)
  {
    if Ignored(e, localIp) {
      IgnoredTracked(l, entries, localIp);
    } else if e.group.None? {
      OwnIsNew(l, entries, localIp);
      UnicastShape(l, e, localIp);
      UnicastTracked(l, AddEntry(l, e, localIp), entries, localIp, Peer(|l.peers|, e.ip, e.port, e.kind.value));
    } else {
      MemberAdded(l, entries, localIp, e, (e.group.value, e.port));
    }
  }

  /** Entries with distinct addresses all get their peers, and queries reach them: none is turned away, each
      is queried itself or belongs to one group that is, all ids are distinct, and their number is that of
      the entries and of their groups, with the local peer. */
  lemma {:induction false} DistinctEntriesAreListed(entries: seq<Entry>, localIp: nat, localPort: nat)
    requires |entries| < MAX_DEFINED_PEERS && DistinctEntries(entries, localIp)
    ensures var l := Build(EMPTY, entries, localIp, localPort);
            Tracks(l, entries, localIp) && EndsInOwn(l.peers) && Sound(l) && |l.peers| <= 1 + 2 * |entries|
  {
    BuildSound(entries, localIp, localPort);
    if entries == [] {
      LocalTracked(localIp, localPort);
    } else {
      var n := |entries| - 1;
      var before := entries[..n];
      DistinctEntriesAreListed(before, localIp, localPort);
      NextTracked(Build(EMPTY, before, localIp, localPort), entries, localIp, entries[n]);
    }
  }

  lemma BuildSound(entries: seq<Entry>, localIp: nat, localPort: nat)
    ensures var l := Build(EMPTY, entries, localIp, localPort);
            Sound(l) && |l.peers| <= 1 + 2 * |entries|
  {
    AddKeepsSound(EMPTY, localIp, localPort, Local);
    EntriesKeepSound(AddLocal(EMPTY, localIp, localPort), entries, localIp);
  }

  lemma LocalTracked(localIp: nat, localPort: nat)
    ensures Tracks(AddLocal(EMPTY, localIp, localPort), [], localIp)
    ensures EndsInOwn(AddLocal(EMPTY, localIp, localPort).peers)
  {
    var l := AddLocal(EMPTY, localIp, localPort);
    assert l.peers == [Peer(0, localIp, localPort, Local)] && l.sends == [] && l.members == map[];
    assert Groups([], localIp) == {};
    LocalAssigned(l, Peer(0, localIp, localPort, Local));
    assert forall p :: p in l.peers ==> FromEntry(p, [], localIp);
  }

  lemma LocalAssigned(l: Lists, p: Peer)
    requires l.peers == [p] && l.sends == [] && l.members == map[]
    ensures Assigned(l)
  {
  }

  /** The code asserts that no entry is turned away. Where assertions are compiled out such an entry is queried
      all the same, as a peer with id 0, the local peer's; so when there are two, ids are not distinct. */
  lemma TurnedAwayKeepsZero(l: Lists, e: Entry, localIp: nat)
    requires !Ignored(e, localIp) && e.group.None? && Listed(l.peers, e.ip, e.port) && |l.sends| + 2 <= LIST_SIZE
    ensures var zero := Peer(0, e.ip, e.port, e.kind.value);
            var l' := AddEntries(l, [e, e], localIp);
            l'.peers == l.peers && l'.sends == l.sends + [zero, zero]
  {
    assert [e, e][..1] == [e] && [e][..0] == [];
    assert AddEntries(l, [e], localIp) == AddEntry(l, e, localIp);
  }

  // ----- unknown senders

  /** The addition of an unknown sender, which the code asserts to succeed, does so exactly when no peer is
      listed at its address and reply port: always if no peer has its address, but not for the address and
      port of the local peer. */
  lemma UnknownIsAdded(l: Lists, ip: nat, port: nat)
    requires |l.peers| < LIST_SIZE && |l.sends| < LIST_SIZE && !Known(l, ip)
    ensures |AddUnknown(l, ip, port).peers| == |l.peers| + 1 <==> !Listed(l.peers, ip, port)
    ensures !Listed(l.peers, ip, 0) ==>
            |AddUnknown(l, ip, port).peers| == |l.peers| + 1 && Known(AddUnknown(l, ip, port), ip)
    ensures forall p :: p in l.peers && p.kind.Local? && p.ip == ip && p.port == port ==>
            AddUnknown(l, ip, port).peers == l.peers
  {
    if !Listed(l.peers, ip, 0) {
      assert forall i :: 0 <= i < |l.peers| ==> !Matches(l.peers[i], ip, 0);
      var peers := AddUnknown(l, ip, port).peers;
      assert !Listed(l.peers, ip, port);
      assert Matches(peers[|l.peers|], ip, 0);
      var p := Find(peers, ip, 0).value;
      assert p == peers[|l.peers|];
    }
    forall p | p in l.peers && p.kind.Local? && p.ip == ip && p.port == port
      ensures Listed(l.peers, ip, port)
    {
      var i :| 0 <= i < |l.peers| && l.peers[i] == p;
      assert Matches(l.peers[i], ip, port);
    }
  }
}

/** The processor's arrays. Each count is one less than the number of valid entries. */
module IcpPeers {
  import opened PeerLists

  class ICPProcessor {
    const peerList: array<Peer>
    const sendPeerList: array<Peer>
    const recvPeerList: array<Peer>
    const parentPeerList: array<Peer>
    var nPeerList: int
    var nSendPeerList: int
    var nRecvPeerList: int
    var nParentPeerList: int
    /** The member lists of the multicast peers. */
    var members: map<(nat, nat), seq<Peer>>

    ghost predicate Valid()
      reads this
    {
      && peerList.Length == LIST_SIZE && sendPeerList.Length == LIST_SIZE
      && recvPeerList.Length == LIST_SIZE && parentPeerList.Length == LIST_SIZE
      && peerList != sendPeerList && peerList != recvPeerList && peerList != parentPeerList
      && sendPeerList != recvPeerList && sendPeerList != parentPeerList && recvPeerList != parentPeerList
      && -1 <= nPeerList < LIST_SIZE && -1 <= nSendPeerList < LIST_SIZE
      && -1 <= nRecvPeerList < LIST_SIZE && -1 <= nParentPeerList < LIST_SIZE
    }

    ghost function Repr(): set<object>
      reads this
    {
      {this, peerList, sendPeerList, recvPeerList, parentPeerList}
    }

    ghost function State(): Lists
      requires Valid()
      reads this, peerList, sendPeerList, recvPeerList, parentPeerList
    {
      Lists(peerList[..nPeerList + 1], sendPeerList[..nSendPeerList + 1],
            recvPeerList[..nRecvPeerList + 1], parentPeerList[..nParentPeerList + 1], members)
    }

    constructor ()
      ensures Valid() && fresh(Repr()) && State() == EMPTY
    {
      var none := Peer(0, 0, 0, Local);
      peerList := new Peer[LIST_SIZE](_ => none);
      sendPeerList := new Peer[LIST_SIZE](_ => none);
      recvPeerList := new Peer[LIST_SIZE](_ => none);
      parentPeerList := new Peer[LIST_SIZE](_ => none);
      nPeerList, nSendPeerList, nRecvPeerList, nParentPeerList := -1, -1, -1, -1;
      members := map[];
    }

    method FreePeerList()
      requires Valid()
      modifies this
      ensures Valid() && State() == EMPTY
    {
      nPeerList, nSendPeerList, nRecvPeerList, nParentPeerList := -1, -1, -1, -1;
      members := map[];
    }

    method FindPeer(ip: nat, port: nat) returns (r: Option<Peer>)
      requires Valid()
      ensures r == Find(State().peers, ip, port)
    {
      ghost var list := State().peers;
      var n := 0;
      while n <= nPeerList
        invariant 0 <= n <= nPeerList + 1
        invariant Find(list, ip, port) == Find(list[n..], ip, port)
      {
        assert list[n] == peerList[n];
        if Matches(peerList[n], ip, port) {
          return Some(peerList[n]);
        }
        assert list[n..][1..] == list[n + 1..];
        n := n + 1;
      }
      return None;
    }

    /** The peer comes back with its id. */
    method AddPeer(ip: nat, port: nat, kind: Kind) returns (added: bool, p: Peer)
      requires Valid()
      modifies Repr()
      ensures Valid() && State() == Add(old(State()), ip, port, kind)
      ensures added == CanAdd(old(State()).peers, ip, port) && p == Numbered(old(State()).peers, ip, port, kind)
    {
      ghost var was := State();
      p := Peer(0, ip, port, kind);
      var found := FindPeer(ip, port);
      if found.None? && nPeerList + 1 < LIST_SIZE {
        nPeerList := nPeerList + 1;
        p := p.(id := nPeerList);
        peerList[nPeerList] := p;
        assert State().peers == was.peers + [p];
        return true, p;
      }
      return false, p;
    }

    method AddPeerToSendList(p: Peer) returns (added: bool)
      requires Valid()
      modifies Repr()
      ensures Valid() && State() == old(State()).(sends := Append(old(State()).sends, p))
      ensures added == (|old(State()).sends| < LIST_SIZE)
    {
      ghost var was := State();
      if nSendPeerList + 1 < LIST_SIZE {
        nSendPeerList := nSendPeerList + 1;
        sendPeerList[nSendPeerList] := p;
        assert State().sends == was.sends + [p];
        return true;
      }
      return false;
    }

    method AddPeerToRecvList(p: Peer) returns (added: bool)
      requires Valid()
      modifies Repr()
      ensures Valid() && State() == old(State()).(recvs := Append(old(State()).recvs, p))
      ensures added == (|old(State()).recvs| < LIST_SIZE)
    {
      ghost var was := State();
      if nRecvPeerList + 1 < LIST_SIZE {
        nRecvPeerList := nRecvPeerList + 1;
        recvPeerList[nRecvPeerList] := p;
        assert State().recvs == was.recvs + [p];
        return true;
      }
      return false;
    }

    method AddPeerToParentList(p: Peer) returns (added: bool)
      requires Valid()
      modifies Repr()
      ensures Valid() && State() == old(State()).(parents := Append(old(State()).parents, p))
      ensures added == (|old(State()).parents| < LIST_SIZE)
    {
      ghost var was := State();
      if nParentPeerList + 1 < LIST_SIZE {
        nParentPeerList := nParentPeerList + 1;
        parentPeerList[nParentPeerList] := p;
        assert State().parents == was.parents + [p];
        return true;
      }
      return false;
    }

    /** Finds or makes a multicast peer, and answers its address. */
    method AddMultiCastPeer(group: nat, port: nat) returns (key: (nat, nat))
      requires Valid()
      modifies Repr()
      ensures Valid() && State() == AddGroup(old(State()), group, port)
      ensures key == GroupAt(old(State()), group, port)
    {
      var mc := FindPeer(group, port);
      if mc.None? {
        AddNewMultiCastPeer(group, port);
        return (group, port);
      }
      return (mc.value.ip, mc.value.port);
    }

    method AddNewMultiCastPeer(group: nat, port: nat)
      requires Valid() && Find(State().peers, group, port).None?
      modifies Repr()
      ensures Valid() && State() == AddGroup(old(State()), group, port)
    {
      var status, m := AddPeer(group, port, MultiCast);
      status := AddPeerToSendList(m);
      status := AddPeerToRecvList(m);
      members := members[(group, port) := []];
    }

    /** The list of members, from its head. */
    method FindMultiCastChild(list: seq<Peer>, ip: nat, port: nat) returns (r: Option<Peer>)
      ensures r == Find(list, ip, port)
    {
      var n := 0;
      while n < |list|
        invariant 0 <= n <= |list| && Find(list, ip, port) == Find(list[n..], ip, port)
      {
        if Matches(list[n], ip, port) {
          return Some(list[n]);
        }
        assert list[n..][1..] == list[n + 1..];
        n := n + 1;
      }
      return None;
    }

    method AddMultiCastChild(key: (nat, nat), p: Peer) returns (added: bool)
      requires Valid()
      modifies this`members
      ensures Valid() && State() == AddChild(old(State()), key, p)
      ensures added == Find(Members(old(State()), key), p.ip, p.port).None?
    {
      var list := if key in members then members[key] else [];
      var r := FindMultiCastChild(list, p.ip, p.port);
      if r.Some? {
        return false;
      }
      members := members[key := [p] + list];
      return true;
    }

    method AddEntryPeers(e: Entry, localIp: nat)
      requires Valid()
      modifies Repr()
      ensures Valid() && State() == AddEntry(old(State()), e, localIp)
    {
      if Ignored(e, localIp) { return; }
      var status, p;
      if e.group.Some? {
        var key := AddMultiCastPeer(e.group.value, e.port);
        status, p := AddPeer(e.ip, e.port, e.kind.value);
        status := AddMultiCastChild(key, p);
      } else {
        status, p := AddPeer(e.ip, e.port, e.kind.value);
        status := AddPeerToSendList(p);
      }
      if e.kind == Some(Parent) {
        status := AddPeerToParentList(p);
      }
    }

    method BuildPeerList(entries: seq<Entry>, localIp: nat, localPort: nat)
      requires Valid()
      modifies Repr()
      ensures Valid() && State() == Build(old(State()), entries, localIp, localPort)
    {
      ghost var was := State();
      var status, p := AddPeer(localIp, localPort, Local);
      status := AddPeerToRecvList(p);
      assert entries[..0] == [];
      for i := 0 to |entries|
        invariant Valid() && State() == AddEntries(AddLocal(was, localIp, localPort), entries[..i], localIp)
      {
        assert entries[..i + 1][..i] == entries[..i];
        AddEntryPeers(entries[i], localIp);
      }
      assert entries[..|entries|] == entries;
    }
  }
}
