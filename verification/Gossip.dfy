/** Members exchanging rosters over a network that may lose, duplicate, reorder and misdeliver. */
module GossipNetwork {
  import opened Domain
  import opened Membership

  /** `archive[x][k]` is the record `x` published about itself under incarnation `k`. */
  type Archive = map<string, map<nat, Entry>>

  /** A call to leave that has drawn its number and not published it yet. */
  datatype Drawn = Drawn(name: string, number: nat)

  /** Messages stay in `sent` for ever: delivering one again is duplication, never delivering it is
      loss. `owing` are the members about to answer a push-pull they have merged. */
  datatype Net = Net(
    members: map<string, Member>,
    sent: set<Msg>,
    owing: set<string>,
    drawn: set<Drawn>,
    archive: Archive)

  const QUIET := Net(map[], {}, {}, {}, map[])

  /** Steps between which a member holds no lock, with the listing order of each snapshot. Merging a
      push-pull and answering it are two steps, and so are the halves of leaving. */
  datatype Event =
    | Start(name: string, addr: string)
    | Join(x: string, peers: seq<Entry>)
    | Receive(x: string, msg: Msg)
    | Answer(x: string, peers: seq<Entry>)
    | DrawNumber(x: string)
    | PublishLeft(x: string, number: nat)
    | GossipOut(x: string, peers: seq<Entry>)

  /** Any number of calls to leave may be under way, and they publish in any order. */
  ghost predicate Can(n: Net, ev: Event) {
    match ev
    case Start(name, _) => name !in n.members
    case Join(x, peers) => x in n.members && IsSnapshot(peers, n.members[x].roster)
    case Receive(x, msg) => x in n.members && x !in n.owing && msg in n.sent
    case Answer(x, peers) => x in n.members && x in n.owing && IsSnapshot(peers, n.members[x].roster)
    case DrawNumber(x) => x in n.members
    case PublishLeft(x, number) => x in n.members && Drawn(x, number) in n.drawn
    case GossipOut(x, peers) => x in n.members && IsSnapshot(peers, n.members[x].roster)
  }

  /** The archive with the member's present record about itself. */
  function Archived(archive: Archive, m: Member): Archive {
    if m.name !in m.roster then archive else
    var e := m.roster[m.name];
    archive[m.name := (if m.name in archive then archive[m.name] else map[])[e.incarnation := e]]
  }

  ghost function Next(n: Net, ev: Event): Net
    requires Can(n, ev)
  {
    match ev
    case Start(name, addr) =>
      var m := Started(name, addr);
      n.(members := n.members[name := m], archive := Archived(n.archive, m))
    case Join(_, peers) => n.(sent := n.sent + {PushPull(peers, true)})
    case Receive(x, msg) =>
      n.(members := n.members[x := Received(n.members[x], msg.peers)],
         owing := if WantsReply(msg) then n.owing + {x} else n.owing)
    case Answer(x, peers) => n.(sent := n.sent + {PushPull(peers, false)}, owing := n.owing - {x})
    case DrawNumber(x) =>
      var m := Bumped(n.members[x]);
      n.(members := n.members[x := m], drawn := n.drawn + {Drawn(x, m.incarnation)})
    case PublishLeft(x, number) =>
      var m := Published(n.members[x], number);
      n.(members := n.members[x := m], drawn := n.drawn - {Drawn(x, number)}, archive := Archived(n.archive, m))
    case GossipOut(_, peers) => n.(sent := n.sent + {Gossip(peers)})
  }

  ghost function Step(n: Net, ev: Event): Net {
    if Can(n, ev) then Next(n, ev) else n
  }

  ghost function After(n: Net, evs: seq<Event>): Net {
    if |evs| == 0 then n else Step(After(n, evs[..|evs| - 1]), evs[|evs| - 1])
  }

  // ---- Every record is true -------------------------------------------------------------------

  /** The record is what its subject itself published under that incarnation. */
  ghost predicate True(archive: Archive, w: Entry) {
    w.name in archive && w.incarnation in archive[w.name] && w == archive[w.name][w.incarnation]
  }

  ghost predicate AllTrue(archive: Archive, ws: seq<Entry>) {
    forall i | 0 <= i < |ws| :: True(archive, ws[i])
  }

  ghost predicate TrueRoster(archive: Archive, r: Roster) {
    Keyed(r) && forall x | x in r :: True(archive, r[x])
  }

  /** What a member published: alive under zero, left under every later number. */
  ghost predicate HistoryOf(x: string, h: map<nat, Entry>) {
    forall k | k in h :: h[k].name == x && h[k].incarnation == k && h[k].status == if k == 0 then Alive else Left
  }

  /** Every record the member holds is true, and it holds one about itself. */
  ghost predicate MemberOk(archive: Archive, x: string, m: Member) {
    m.name == x && x in m.roster && TrueRoster(archive, m.roster)
  }

  /** Each number up to the member's counter was either published or drawn by a call still under way, and
      not both: no number is published twice. */
  ghost predicate NumbersOk(archive: Archive, drawn: set<Drawn>, x: string, counter: nat) {
    && x in archive
    && (forall k: nat :: k in archive[x] <==> k <= counter && Drawn(x, k) !in drawn)
    && (forall k: nat :: Drawn(x, k) in drawn ==> 0 < k <= counter)
  }

  ghost predicate NetInv(n: Net) {
    && n.archive.Keys == n.members.Keys
    && (forall l | l in n.drawn :: l.name in n.members)
    && (forall x | x in n.archive :: HistoryOf(x, n.archive[x]))
    && (forall x | x in n.members :: MemberOk(n.archive, x, n.members[x]))
    && (forall x | x in n.members :: NumbersOk(n.archive, n.drawn, x, n.members[x].incarnation))
    && (forall m | m in n.sent :: AllTrue(n.archive, m.peers))
  }

  lemma SnapshotTrue(archive: Archive, x: string, m: Member, peers: seq<Entry>)
    requires MemberOk(archive, x, m) && IsSnapshot(peers, m.roster)
    ensures AllTrue(archive, peers)
  { }

  lemma {:induction false} MergedTrue(archive: Archive, r: Roster, self: string, peers: seq<Entry>)
    requires TrueRoster(archive, r) && AllTrue(archive, peers)
    ensures TrueRoster(archive, Merged(r, self, peers))
  {
    if |peers| == 0 {
    } else {
      MergedTrue(archive, r, self, peers[..|peers| - 1]);
    }
  }

  /** Published records are never withdrawn or altered. */
  ghost predicate Extends(p: Archive, q: Archive) {
    forall x, k | x in p && k in p[x] :: x in q && k in q[x] && q[x][k] == p[x][k]
  }

  lemma TrueStays(p: Archive, q: Archive, ws: seq<Entry>)
    requires Extends(p, q) && AllTrue(p, ws)
    ensures AllTrue(q, ws)
  { }

  lemma RosterStays(p: Archive, q: Archive, r: Roster)
    requires Extends(p, q) && TrueRoster(p, r)
    ensures TrueRoster(q, r)
  { }

  lemma StartedOk(archive: Archive, drawn: set<Drawn>, x: string, addr: string)
    requires x !in archive && forall k: nat :: Drawn(x, k) !in drawn
    ensures var m := Started(x, addr);
            var q := Archived(archive, m);
            && q.Keys == archive.Keys + {x} && Extends(archive, q) && (forall y | y in archive :: q[y] == archive[y])
            && HistoryOf(x, q[x]) && MemberOk(q, x, m) && NumbersOk(q, drawn, x, m.incarnation)
  { }

  lemma ReceivedOk(archive: Archive, x: string, m: Member, peers: seq<Entry>)
    requires MemberOk(archive, x, m) && AllTrue(archive, peers)
    ensures MemberOk(archive, x, Received(m, peers))
  {
    MergedTrue(archive, m.roster, x, peers);
    MergedKeyed(m.roster, x, peers);
  }

  lemma PublishedRecord(archive: Archive, drawn: set<Drawn>, x: string, m: Member, number: nat)
    requires MemberOk(archive, x, m) && NumbersOk(archive, drawn, x, m.incarnation) && Drawn(x, number) in drawn
    ensures var t := Published(m, number);
            && t.name == x && x in m.roster && x in t.roster
            && t.roster[x].status == Left && t.roster[x].incarnation == number
            && x in archive && Archived(archive, t).Keys == archive.Keys
            && Archived(archive, t)[x] == archive[x][number := t.roster[x]]
            && (forall y | y in archive && y != x :: Archived(archive, t)[y] == archive[y])
            && number !in archive[x] && m.roster[x].incarnation in archive[x]
            && archive[x][m.roster[x].incarnation] == m.roster[x] && t.roster[x].addr == m.roster[x].addr
  {
    assert True(archive, m.roster[x]);
  }

  lemma PublishedOk(archive: Archive, drawn: set<Drawn>, x: string, m: Member, number: nat)
    requires MemberOk(archive, x, m) && NumbersOk(archive, drawn, x, m.incarnation) && HistoryOf(x, archive[x])
    requires Drawn(x, number) in drawn
    ensures var t := Published(m, number);
            var q := Archived(archive, t);
            && q.Keys == archive.Keys && Extends(archive, q)
            && (forall y | y in archive && y != x :: q[y] == archive[y])
            && HistoryOf(x, q[x]) && MemberOk(q, x, t) && NumbersOk(q, drawn - {Drawn(x, number)}, x, t.incarnation)
  {
    hide Archived;
    var t := Published(m, number);
    var q := Archived(archive, t);
    PublishedRecord(archive, drawn, x, m, number);
    RosterStays(archive, q, m.roster);
    assert True(q, t.roster[x]);
  }

  /** What other members hold and what was sent stays true while the archive is only extended. */
  lemma OthersOk(n: Net, q: Archive, x: string)
    requires NetInv(n) && Extends(n.archive, q)
    ensures forall y | y in n.members && y != x :: MemberOk(q, y, n.members[y])
    ensures forall m | m in n.sent :: AllTrue(q, m.peers)
  {
    forall y | y in n.members && y != x ensures MemberOk(q, y, n.members[y]) {
      RosterStays(n.archive, q, n.members[y].roster);
    }
    forall m | m in n.sent ensures AllTrue(q, m.peers) { TrueStays(n.archive, q, m.peers); }
  }

  lemma NumbersKept(archive: Archive, drawn: set<Drawn>, q: Archive, rest: set<Drawn>, y: string, counter: nat)
    requires NumbersOk(archive, drawn, y, counter) && y in q && q[y] == archive[y]
    requires forall k: nat :: Drawn(y, k) in drawn <==> Drawn(y, k) in rest
    ensures NumbersOk(q, rest, y, counter)
  { }

  lemma NotDrawn(n: Net, x: string)
    requires NetInv(n) && x !in n.members
    ensures forall k: nat :: Drawn(x, k) !in n.drawn
  {
    assert forall d | d in n.drawn :: d.name in n.members;
  }

  lemma StartInv(n: Net, x: string, addr: string)
    requires NetInv(n) && Can(n, Start(x, addr))
    ensures NetInv(Next(n, Start(x, addr)))
  {
    hide MemberOk, AllTrue, HistoryOf, NumbersOk, Started, Archived, Extends;
    NotDrawn(n, x);
    var t := Next(n, Start(x, addr));
    StartedOk(n.archive, n.drawn, x, addr);
    OthersOk(n, t.archive, x);
    forall y | y in n.members ensures NumbersOk(t.archive, t.drawn, y, n.members[y].incarnation) {
      NumbersKept(n.archive, n.drawn, t.archive, t.drawn, y, n.members[y].incarnation);
    }
  }

  lemma DrawInv(n: Net, x: string)
    requires NetInv(n) && Can(n, DrawNumber(x))
    ensures NetInv(Next(n, DrawNumber(x)))
  {
    hide AllTrue, HistoryOf, TrueRoster;
    var t := Next(n, DrawNumber(x));
    forall y | y in n.members ensures NumbersOk(t.archive, t.drawn, y, t.members[y].incarnation) {
      assert NumbersOk(n.archive, n.drawn, y, n.members[y].incarnation);
    }
  }

  lemma PublishInv(n: Net, x: string, number: nat)
    requires NetInv(n) && Can(n, PublishLeft(x, number))
    ensures NetInv(Next(n, PublishLeft(x, number)))
  {
    hide MemberOk, AllTrue, HistoryOf, NumbersOk, Published, Archived, Extends;
    var t := Next(n, PublishLeft(x, number));
    PublishedOk(n.archive, n.drawn, x, n.members[x], number);
    OthersOk(n, t.archive, x);
    forall y | y in n.members && y != x ensures NumbersOk(t.archive, t.drawn, y, n.members[y].incarnation) {
      NumbersKept(n.archive, n.drawn, t.archive, t.drawn, y, n.members[y].incarnation);
    }
  }

  lemma ReceiveInv(n: Net, x: string, msg: Msg)
    requires NetInv(n) && Can(n, Receive(x, msg))
    ensures NetInv(Next(n, Receive(x, msg)))
  {
    hide MemberOk, AllTrue, HistoryOf, NumbersOk, Merged;
    ReceivedOk(n.archive, x, n.members[x], msg.peers);
  }

  lemma SendInv(n: Net, x: string, m: Msg)
    requires NetInv(n) && x in n.members && IsSnapshot(m.peers, n.members[x].roster)
    ensures NetInv(n.(sent := n.sent + {m}))
  {
    hide MemberOk, AllTrue, HistoryOf, NumbersOk, IsSnapshot;
    SnapshotTrue(n.archive, x, n.members[x], m.peers);
  }

  lemma StepInv(n: Net, ev: Event)
    requires NetInv(n)
    ensures NetInv(Step(n, ev))
  {
    hide MemberOk, AllTrue, HistoryOf, NumbersOk, IsSnapshot, Started, Received, Bumped, Published, Archived;
    if Can(n, ev) {
      match ev
      case Start(name, addr) => StartInv(n, name, addr);
      case Join(x, peers) => SendInv(n, x, PushPull(peers, true));
      case Receive(x, msg) => ReceiveInv(n, x, msg);
      case Answer(x, peers) => SendInv(n, x, PushPull(peers, false));
      case DrawNumber(x) => DrawInv(n, x);
      case PublishLeft(x, number) => PublishInv(n, x, number);
      case GossipOut(x, peers) => SendInv(n, x, Gossip(peers));
    }
  }

  /** In every reachable network, under any loss, duplication and reordering and however calls to leave
      overlap: each record about `x`, in any roster or message, is what `x` itself published under that
      incarnation, which is never beyond `x`'s counter, and `x` publishes no incarnation twice. */
  lemma {:induction false} RecordsAreTrue(n: Net, evs: seq<Event>)
    requires NetInv(n)
    ensures NetInv(After(n, evs))
  {
    if |evs| == 0 {
    } else {
      RecordsAreTrue(n, evs[..|evs| - 1]);
      StepInv(After(n, evs[..|evs| - 1]), evs[|evs| - 1]);
    }
  }

  lemma ReachableIsTrue(evs: seq<Event>)
    ensures NetInv(After(QUIET, evs))
  {
    RecordsAreTrue(QUIET, evs);
  }

  // ---- Rosters move forward -------------------------------------------------------------------

  /** What the roster says about `x` is not forgotten and its incarnation does not fall. */
  ghost predicate ForwardOn(r: Roster, t: Roster, x: string) {
    x in r ==> x in t && r[x].incarnation <= t[x].incarnation
  }

  ghost predicate Forward(r: Roster, t: Roster) {
    forall x :: ForwardOn(r, t, x)
  }

  lemma {:induction false} MergedForward(r: Roster, self: string, peers: seq<Entry>)
    ensures Forward(r, Merged(r, self, peers))
  {
    if |peers| == 0 {
    } else {
      var before := Merged(r, self, peers[..|peers| - 1]);
      MergedForward(r, self, peers[..|peers| - 1]);
      forall x ensures ForwardOn(r, Merged(r, self, peers), x) { assert ForwardOn(r, before, x); }
    }
  }

  lemma StepForward(n: Net, ev: Event, y: string, x: string)
    requires NetInv(n) && y in n.members && y != x
    ensures y in Step(n, ev).members && ForwardOn(n.members[y].roster, Step(n, ev).members[y].roster, x)
  {
    hide AllTrue, HistoryOf, Merged, TrueRoster, NumbersOk;
    if Can(n, ev) {
      match ev
      case Receive(z, msg) => MergedForward(n.members[z].roster, n.members[z].name, msg.peers);
      case PublishLeft(z, _) => assert MemberOk(n.archive, z, n.members[z]);
      case _ =>
    }
  }

  /** No roster forgets another member, and no incarnation it holds of another member falls. */
  lemma {:induction false} RunForward(n: Net, evs: seq<Event>, y: string, x: string)
    requires NetInv(n) && y in n.members && y != x
    ensures y in After(n, evs).members && ForwardOn(n.members[y].roster, After(n, evs).members[y].roster, x)
  {
    if |evs| == 0 {
    } else {
      hide NetInv, Step;
      RunForward(n, evs[..|evs| - 1], y, x);
      RecordsAreTrue(n, evs[..|evs| - 1]);
      StepForward(After(n, evs[..|evs| - 1]), evs[|evs| - 1], y, x);
    }
  }

  function Known(r: Roster, x: string): Option<Entry> {
    if x in r then Some(r[x]) else None
  }

  lemma RosterKeyed(archive: Archive, r: Roster)
    requires TrueRoster(archive, r)
    ensures Keyed(r)
  { }

  /** Other steps leave what the member published, and its record about itself, as they were. */
  lemma QuietOwn(n: Net, ev: Event, x: string)
    requires NetInv(n) && Can(n, ev)
    requires !(ev.PublishLeft? && ev.x == x) && !(ev.Start? && ev.name == x)
    ensures var t := Next(n, ev);
            && (x in t.members <==> x in n.members)
            && (x in n.members ==> && x in t.archive && x in n.archive && t.archive[x] == n.archive[x]
                                   && Known(t.members[x].roster, x) == Known(n.members[x].roster, x))
  {
    hide AllTrue, HistoryOf, TrueRoster, NumbersOk, Merged;
    if ev.Receive? && ev.x == x {
      assert MemberOk(n.archive, x, n.members[x]);
      RosterKeyed(n.archive, n.members[x].roster);
      MergedKeyed(n.members[x].roster, x, ev.msg.peers);
    } else if ev.PublishLeft? {
      assert MemberOk(n.archive, ev.x, n.members[ev.x]);
    }
  }

  ghost predicate ShowsLeft(n: Net, y: string, x: string) {
    y in n.members && x in n.members[y].roster && n.members[y].roster[x].status == Left
  }

  lemma LeftIffLater(n: Net, y: string, x: string)
    requires NetInv(n) && y in n.members && x in n.members[y].roster
    ensures var e := n.members[y].roster[x];
            e.status == Left <==> e.incarnation > 0
  {
    var e := n.members[y].roster[x];
    assert MemberOk(n.archive, y, n.members[y]);
    assert True(n.archive, e);
    assert HistoryOf(x, n.archive[x]);
  }

  lemma PublishSelf(n: Net, x: string, number: nat)
    requires NetInv(n) && Can(n, PublishLeft(x, number))
    ensures var t := Next(n, PublishLeft(x, number));
            && x in t.members && x in n.members[x].roster && x in t.members[x].roster
            && t.members[x].roster[x].status == Left && t.members[x].roster[x].incarnation == number
            && x in n.archive && x in t.archive && t.archive[x] == n.archive[x][number := t.members[x].roster[x]]
            && number !in n.archive[x] && n.members[x].roster[x].incarnation in n.archive[x]
            && n.archive[x][n.members[x].roster[x].incarnation] == n.members[x].roster[x]
            && t.members[x].roster[x].addr == n.members[x].roster[x].addr
  {
    hide AllTrue, HistoryOf, MemberOk, NumbersOk, Archived, Published;
    PublishedRecord(n.archive, n.drawn, x, n.members[x], number);
  }

  lemma StepSelfLeft(n: Net, ev: Event, x: string)
    requires NetInv(n) && ShowsLeft(n, x, x)
    ensures ShowsLeft(Step(n, ev), x, x)
  {
    hide NetInv, Next;
    if Can(n, ev) {
      if ev.PublishLeft? && ev.x == x {
        PublishSelf(n, x, ev.number);
      } else {
        QuietOwn(n, ev, x);
      }
    }
  }

  lemma StepLeft(n: Net, ev: Event, y: string, x: string)
    requires NetInv(n) && ShowsLeft(n, y, x)
    ensures ShowsLeft(Step(n, ev), y, x)
  {
    if x == y {
      StepSelfLeft(n, ev, x);
    } else {
      hide Step, NetInv;
      StepForward(n, ev, y, x);
      StepInv(n, ev);
      LeftIffLater(n, y, x);
      LeftIffLater(Step(n, ev), y, x);
    }
  }

  /** An observed departure is final: once some roster shows `x` as left, that roster shows `x` as left
      after any further run. */
  lemma {:induction false} LeftIsFinal(n: Net, evs: seq<Event>, y: string, x: string)
    requires NetInv(n) && ShowsLeft(n, y, x)
    ensures ShowsLeft(After(n, evs), y, x)
  {
    if |evs| == 0 {
    } else {
      hide NetInv, Step, ShowsLeft;
      LeftIsFinal(n, evs[..|evs| - 1], y, x);
      RecordsAreTrue(n, evs[..|evs| - 1]);
      StepLeft(After(n, evs[..|evs| - 1]), evs[|evs| - 1], y, x);
    }
  }

  // ---- Overlapping departures -----------------------------------------------------------------

  /** The step publishes a number lower than one `x` has already published. */
  ghost predicate Late(n: Net, ev: Event, x: string) {
    && ev.PublishLeft? && ev.x == x && Can(n, ev) && x in n.archive
    && exists k :: k in n.archive[x] && k > ev.number
  }

  ghost predicate NeverLate(n: Net, evs: seq<Event>, x: string) {
    |evs| == 0 || (NeverLate(n, evs[..|evs| - 1], x) && !Late(After(n, evs[..|evs| - 1]), evs[|evs| - 1], x))
  }

  /** The member's record about itself is the latest it published. */
  ghost predicate OwnLatest(n: Net, x: string) {
    x in n.members ==>
      && x in n.members[x].roster && x in n.archive
      && forall k | k in n.archive[x] :: k <= n.members[x].roster[x].incarnation
  }

  ghost predicate AlwaysLatest(n: Net, evs: seq<Event>, x: string) {
    OwnLatest(After(n, evs), x) && (|evs| == 0 || AlwaysLatest(n, evs[..|evs| - 1], x))
  }

  /** The incarnation in the member's record about itself does not fall. */
  ghost predicate OwnForward(n: Net, t: Net, x: string) {
    x in n.members && x in t.members ==> ForwardOn(n.members[x].roster, t.members[x].roster, x)
  }

  ghost predicate NeverFalls(n: Net, evs: seq<Event>, x: string) {
    |evs| == 0 ||
    (NeverFalls(n, evs[..|evs| - 1], x) && OwnForward(After(n, evs[..|evs| - 1]), After(n, evs), x))
  }

  lemma GreatestAfter(h: map<nat, Entry>, own: nat, number: nat, more: map<nat, Entry>)
    requires own in h && (forall k | k in h :: k <= own) && number !in h && more.Keys == h.Keys + {number}
    ensures (forall k | k in more :: k <= number) <==> own < number
    ensures (exists k :: k in h && k > number) <==> own > number
  {
    assert own in more.Keys;
  }

  lemma InMembers(n: Net, x: string, number: nat)
    requires Can(n, PublishLeft(x, number))
    ensures x in n.members
  { }

  lemma PublishOwn(n: Net, x: string, number: nat)
    requires NetInv(n) && OwnLatest(n, x) && Can(n, PublishLeft(x, number))
    ensures var t := Next(n, PublishLeft(x, number));
            && (OwnLatest(t, x) <==> !Late(n, PublishLeft(x, number), x))
            && (OwnForward(n, t, x) <==> !Late(n, PublishLeft(x, number), x))
  {
    hide NetInv, Next, Can;
    PublishSelf(n, x, number);
    var t := Next(n, PublishLeft(x, number));
    InMembers(n, x, number);
    GreatestAfter(n.archive[x], n.members[x].roster[x].incarnation, number, t.archive[x]);
  }

  lemma StartOwn(n: Net, x: string, addr: string)
    requires NetInv(n) && Can(n, Start(x, addr))
    ensures OwnLatest(Next(n, Start(x, addr)), x) && OwnForward(n, Next(n, Start(x, addr)), x)
  { }

  lemma KnownSame(n: Net, t: Net, x: string)
    requires (x in t.members <==> x in n.members) && OwnLatest(n, x)
    requires x in n.members ==> && x in t.archive && x in n.archive && t.archive[x] == n.archive[x]
                                && Known(t.members[x].roster, x) == Known(n.members[x].roster, x)
    ensures OwnLatest(t, x) && OwnForward(n, t, x)
  { }

  lemma StepOwn(n: Net, ev: Event, x: string)
    requires NetInv(n) && OwnLatest(n, x)
    ensures OwnLatest(Step(n, ev), x) <==> !Late(n, ev, x)
    ensures OwnForward(n, Step(n, ev), x) <==> !Late(n, ev, x)
  {
    hide NetInv, Can, Next;
    if Can(n, ev) {
      if ev.PublishLeft? && ev.x == x {
        PublishOwn(n, x, ev.number);
      } else if ev.Start? && ev.name == x {
        StartOwn(n, x, ev.addr);
      } else {
        QuietOwn(n, ev, x);
        KnownSame(n, Next(n, ev), x);
      }
    }
  }

  lemma AlwaysLatestNow(n: Net, evs: seq<Event>, x: string)
    ensures AlwaysLatest(n, evs, x) ==> OwnLatest(After(n, evs), x)
  { }

  /** Leaving is not one step, and this is exactly what that costs, for any number of overlapping calls: a
      member's record about itself is its latest at every point of a run, and never falls, if and only
      if no call publishes a lower number after another has published a higher one. */
  lemma {:induction false} OverlappingLeaves(n: Net, evs: seq<Event>, x: string)
    requires NetInv(n) && OwnLatest(n, x)
    ensures AlwaysLatest(n, evs, x) <==> NeverLate(n, evs, x)
    ensures NeverFalls(n, evs, x) <==> NeverLate(n, evs, x)
  {
    if |evs| == 0 {
    } else {
      var before, ev := evs[..|evs| - 1], evs[|evs| - 1];
      var m := After(n, before);
      OverlappingLeaves(n, before, x);
      RecordsAreTrue(n, before);
      AlwaysLatestNow(n, before, x);
      hide NetInv, Late, OwnLatest, OwnForward, Step;
      if NeverLate(n, before, x) { StepOwn(m, ev, x); }
    }
  }

  lemma DrawStep(n: Net, x: string)
    requires NetInv(n) && x in n.members
    ensures var t := Step(n, DrawNumber(x));
            && NetInv(t) && x in t.members
            && t.members[x].incarnation == n.members[x].incarnation + 1
            && t.drawn == n.drawn + {Drawn(x, t.members[x].incarnation)} && t.archive == n.archive
  {
    hide NetInv;
    DrawInv(n, x);
  }

  lemma PublishStep(n: Net, x: string, number: nat)
    requires NetInv(n) && x in n.members && Drawn(x, number) in n.drawn
    ensures var t := Step(n, PublishLeft(x, number));
            && NetInv(t) && x in t.members && t.drawn == n.drawn - {Drawn(x, number)}
            && x in t.members[x].roster && t.members[x].roster[x].incarnation == number
            && x in n.archive && x in t.archive && t.archive[x].Keys == n.archive[x].Keys + {number}
  {
    hide NetInv, Published, Archived;
    PublishSelf(n, x, number);
    PublishInv(n, x, number);
  }

  lemma OvertakenPublish(n: Net, x: string, higher: nat, lower: nat)
    requires NetInv(n) && x in n.members && higher > lower
    requires Drawn(x, higher) in n.drawn && Drawn(x, lower) in n.drawn
    ensures !OwnLatest(Step(Step(n, PublishLeft(x, higher)), PublishLeft(x, lower)), x)
  {
    hide NetInv, Step;
    PublishStep(n, x, higher);
    var t := Step(n, PublishLeft(x, higher));
    PublishStep(t, x, lower);
    assert higher in t.archive[x].Keys;
    assert higher in Step(t, PublishLeft(x, lower)).archive[x];
  }

  lemma AfterFour(n: Net, a: Event, b: Event, c: Event, d: Event)
    ensures After(n, [a, b, c, d]) == Step(Step(Step(Step(n, a), b), c), d)
  {
    hide Step;
    assert [a, b, c, d][..3] == [a, b, c] && [a, b, c][..2] == [a, b] && [a, b][..1] == [a] && [a][..0] == [];
    assert After(n, []) == n && After(n, [a]) == Step(n, a) && After(n, [a, b]) == Step(Step(n, a), b);
    assert After(n, [a, b, c]) == Step(Step(Step(n, a), b), c);
  }

  /** It happens: from every reachable state, two calls that draw their numbers one after the other and
      publish them in the opposite order leave the member with a record it has already superseded. */
  lemma LateHappens(n: Net, x: string)
    requires NetInv(n) && x in n.members
    ensures var k := n.members[x].incarnation;
            !OwnLatest(After(n, [DrawNumber(x), DrawNumber(x), PublishLeft(x, k + 2), PublishLeft(x, k + 1)]), x)
  {
    hide *;
    var k := n.members[x].incarnation;
    var d := DrawNumber(x);
    DrawStep(n, x);
    DrawStep(Step(n, d), x);
    OvertakenPublish(Step(Step(n, d), d), x, k + 2, k + 1);
    AfterFour(n, d, d, PublishLeft(x, k + 2), PublishLeft(x, k + 1));
  }

  /** When no call to leave is under way, holding one's latest record is holding that of the counter. */
  lemma LatestWhenSettled(n: Net, x: string)
    requires NetInv(n) && x in n.members && forall k: nat :: Drawn(x, k) !in n.drawn
    ensures x in n.members[x].roster
    ensures OwnLatest(n, x) <==> n.members[x].roster[x].incarnation == n.members[x].incarnation
  {
    assert MemberOk(n.archive, x, n.members[x]) && True(n.archive, n.members[x].roster[x]);
    assert NumbersOk(n.archive, n.drawn, x, n.members[x].incarnation);
    assert n.members[x].incarnation in n.archive[x];
  }

  /** A single call at a time is never late: a member with no other call under way publishes a number
      above all it has published. */
  lemma OneAtATime(n: Net, x: string, number: nat)
    requires NetInv(n) && Can(n, PublishLeft(x, number)) && number == n.members[x].incarnation
    ensures !Late(n, PublishLeft(x, number), x)
  {
    assert NumbersOk(n.archive, n.drawn, x, n.members[x].incarnation);
  }

  lemma MemberFacts(n: Net, x: string)
    requires NetInv(n) && x in n.members
    ensures MemberOk(n.archive, x, n.members[x]) && n.members[x].name == x
    ensures TrueRoster(n.archive, n.members[x].roster) && x in n.members[x].roster
  { }

  // ---- Addresses ------------------------------------------------------------------------------

  /** The address `x` bound when it started. */
  ghost function BoundTo(evs: seq<Event>, x: string): Option<string> {
    if |evs| == 0 then None else
    var before, ev := evs[..|evs| - 1], evs[|evs| - 1];
    if ev.Start? && ev.name == x && x !in After(QUIET, before).members then Some(ev.addr) else BoundTo(before, x)
  }

  /** Everything the member published carries the address. */
  ghost predicate AllAt(n: Net, x: string, addr: Option<string>) {
    x in n.archive ==> forall k | k in n.archive[x] :: Some(n.archive[x][k].addr) == addr
  }

  lemma AddressKept(h: map<nat, Entry>, g: map<nat, Entry>, own: Entry, number: nat, next: Entry, addr: Option<string>)
    requires g == h[number := next] && own.incarnation in h && h[own.incarnation] == own && next.addr == own.addr
    requires forall k | k in h :: Some(h[k].addr) == addr
    ensures forall k | k in g :: Some(g[k].addr) == addr
  { }

  lemma AllAtIf(n: Net, x: string, addr: Option<string>)
    requires x in n.archive && forall k | k in n.archive[x] :: Some(n.archive[x][k].addr) == addr
    ensures AllAt(n, x, addr)
  { }

  lemma AllAtMeans(n: Net, x: string, addr: Option<string>)
    requires AllAt(n, x, addr) && x in n.archive
    ensures forall k | k in n.archive[x] :: Some(n.archive[x][k].addr) == addr
  { }

  lemma PublishAt(n: Net, x: string, number: nat, addr: Option<string>)
    requires NetInv(n) && Can(n, PublishLeft(x, number)) && AllAt(n, x, addr)
    ensures AllAt(Next(n, PublishLeft(x, number)), x, addr)
  {
    var t := Next(n, PublishLeft(x, number));
    PublishSelf(n, x, number);
    hide *;
    AllAtMeans(n, x, addr);
    AddressKept(n.archive[x], t.archive[x], n.members[x].roster[x], number, t.members[x].roster[x], addr);
    AllAtIf(t, x, addr);
  }

  lemma StartAt(n: Net, x: string, addr: string)
    requires NetInv(n) && Can(n, Start(x, addr))
    ensures AllAt(Next(n, Start(x, addr)), x, Some(addr))
  { }

  lemma NotStarted(n: Net, x: string)
    requires NetInv(n)
    ensures x in n.archive <==> x in n.members
  { }

  lemma StepAt(n: Net, ev: Event, x: string, addr: Option<string>)
    requires NetInv(n) && AllAt(n, x, addr)
    ensures ev.Start? && ev.name == x && x !in n.members ==> AllAt(Step(n, ev), x, Some(ev.addr))
    ensures !(ev.Start? && ev.name == x && x !in n.members) ==> AllAt(Step(n, ev), x, addr)
  {
    hide NetInv, Next;
    if Can(n, ev) {
      if ev.PublishLeft? && ev.x == x {
        PublishAt(n, x, ev.number, addr);
      } else if ev.Start? && ev.name == x {
        StartAt(n, x, ev.addr);
      } else {
        QuietOwn(n, ev, x);
        StepInv(n, ev);
        NotStarted(n, x);
        NotStarted(Step(n, ev), x);
      }
    }
  }

  lemma {:induction false} ArchiveAt(evs: seq<Event>, x: string)
    ensures AllAt(After(QUIET, evs), x, BoundTo(evs, x))
  {
    if |evs| == 0 {
    } else {
      var before := evs[..|evs| - 1];
      ArchiveAt(before, x);
      ReachableIsTrue(before);
      hide AllAt, NetInv, Step;
      StepAt(After(QUIET, before), evs[|evs| - 1], x, BoundTo(before, x));
    }
  }

  /** In every reachable network each record about a member, in any roster or message, carries the address
      the member bound when it started. */
  lemma AddressesAreTrue(evs: seq<Event>, w: Entry)
    requires var n := After(QUIET, evs);
             || (exists y :: y in n.members && w.name in n.members[y].roster && w == n.members[y].roster[w.name])
             || (exists m :: m in n.sent && w in m.peers)
    ensures Some(w.addr) == BoundTo(evs, w.name)
  {
    var n := After(QUIET, evs);
    ReachableIsTrue(evs);
    ArchiveAt(evs, w.name);
    assert True(n.archive, w) by {
      if y :| y in n.members && w.name in n.members[y].roster && w == n.members[y].roster[w.name] {
        MemberFacts(n, y);
      } else {
        var m :| m in n.sent && w in m.peers;
        assert AllTrue(n.archive, m.peers);
      }
    }
  }

  // ---- Convergence ----------------------------------------------------------------------------

  lemma TrueAgree(archive: Archive, a: Entry, b: Entry)
    requires True(archive, a) && True(archive, b)
    ensures Agree(a, b)
  { }

  function Flatten(msgs: seq<Msg>): seq<Entry> {
    if |msgs| == 0 then [] else Flatten(msgs[..|msgs| - 1]) + msgs[|msgs| - 1].peers
  }

  function ReceivedAll(m: Member, msgs: seq<Msg>): Member {
    if |msgs| == 0 then m else Received(ReceivedAll(m, msgs[..|msgs| - 1]), msgs[|msgs| - 1].peers)
  }

  lemma {:induction false} ReceivedAllMerges(m: Member, msgs: seq<Msg>)
    ensures ReceivedAll(m, msgs) == Received(m, Flatten(msgs))
  {
    if |msgs| == 0 {
    } else {
      ReceivedAllMerges(m, msgs[..|msgs| - 1]);
      MergeGroupingIrrelevant(m.roster, m.name, Flatten(msgs[..|msgs| - 1]), msgs[|msgs| - 1].peers);
    }
  }

  lemma {:induction false} FlattenTrue(n: Net, msgs: seq<Msg>)
    requires NetInv(n) && forall i | 0 <= i < |msgs| :: msgs[i] in n.sent
    ensures AllTrue(n.archive, Flatten(msgs))
  {
    if |msgs| == 0 {
    } else {
      FlattenTrue(n, msgs[..|msgs| - 1]);
    }
  }

  /** Convergence: in any reachable network, two deliveries to a member of sent messages carrying the
      same records, in any order, grouping and multiplicity, leave it with the same roster. */
  lemma DeliveryOrderIrrelevant(n: Net, y: string, a: seq<Msg>, b: seq<Msg>)
    requires NetInv(n) && y in n.members
    requires forall i | 0 <= i < |a| :: a[i] in n.sent
    requires forall i | 0 <= i < |b| :: b[i] in n.sent
    requires forall e :: e in Flatten(a) <==> e in Flatten(b)
    ensures ReceivedAll(n.members[y], a) == ReceivedAll(n.members[y], b)
  {
    var m := n.members[y];
    FlattenTrue(n, a);
    ReceivedAllMerges(m, a);
    ReceivedAllMerges(m, b);
    assert Consistent(m.roster, Flatten(a)) by {
      forall i, j | 0 <= i < |Flatten(a)| && 0 <= j < |Flatten(a)| ensures Agree(Flatten(a)[i], Flatten(a)[j]) {
        TrueAgree(n.archive, Flatten(a)[i], Flatten(a)[j]);
      }
      forall x, i | x in m.roster && 0 <= i < |Flatten(a)| ensures Agree(m.roster[x], Flatten(a)[i]) {
        TrueAgree(n.archive, m.roster[x], Flatten(a)[i]);
      }
    }
    MergeOrderIrrelevant(m.roster, m.name, Flatten(a), Flatten(b));
  }

  /** What is known about `x` after merging `other` into `r`: the better record, one's own about oneself. */
  function Better(r: Roster, self: string, other: Roster, x: string): Option<Entry> {
    if x in r && (x == self || x !in other || other[x].incarnation <= r[x].incarnation) then Some(r[x])
    else if x in other && x != self then Some(other[x])
    else None
  }

  lemma MergedFrom(archive: Archive, r: Roster, self: string, other: Roster, peers: seq<Entry>, x: string)
    requires TrueRoster(archive, r) && TrueRoster(archive, other) && IsSnapshot(peers, other)
    ensures Known(Merged(r, self, peers), x) == Better(r, self, other, x)
  {
    hide Merged;
    MergedIsBest(r, self, peers, x);
    assert forall e: Entry :: e.name == x && e in peers <==> x in other && e == other[x];
    if x in r { assert Reported(r, self, peers, x, r[x]); }
    if x in other && x != self { assert Reported(r, self, peers, x, other[x]); }
    if x in r && x in other { TrueAgree(archive, r[x], other[x]); }
  }

  lemma RosterEqual(r: Roster, t: Roster)
    requires forall x :: Known(r, x) == Known(t, x)
    ensures r == t
  {
    assert forall x :: x in r <==> Known(r, x).Some?;
    assert forall x :: x in t <==> Known(t, x).Some?;
    assert forall x | x in r :: Known(r, x) == Some(r[x]);
    assert forall x | x in t :: Known(t, x) == Some(t[x]);
  }

  /** Neither roster knows more about the other member than that member says of itself. */
  ghost predicate NotAhead(ra: Roster, a: string, rb: Roster, b: string) {
    && (a in ra && a in rb ==> rb[a].incarnation <= ra[a].incarnation)
    && (b in ra && b in rb ==> ra[b].incarnation <= rb[b].incarnation)
  }

  lemma BothBetterIff(archive: Archive, ra: Roster, a: string, rb: Roster, b: string, newB: Roster, x: string)
    requires TrueRoster(archive, ra) && TrueRoster(archive, rb) && a != b && a in ra && b in rb
    requires Known(newB, x) == Better(rb, b, ra, x)
    ensures x != a && x != b ==> Better(ra, a, newB, x) == Known(newB, x)
    ensures x == a ==>
              (Better(ra, a, newB, x) == Known(newB, x) <==> (a in rb ==> rb[a].incarnation <= ra[a].incarnation))
    ensures x == b ==>
              (Better(ra, a, newB, x) == Known(newB, x) <==> (b in ra ==> ra[b].incarnation <= rb[b].incarnation))
  {
    if x in ra && x in rb { TrueAgree(archive, ra[x], rb[x]); }
    assert x in newB <==> Known(newB, x).Some?;
    hide TrueRoster;
  }

  lemma ReceivedRoster(m: Member, peers: seq<Entry>)
    ensures Received(m, peers).roster == Merged(m.roster, m.name, peers)
  { }

  /** `a` sends its roster to `b`; `b` merges it and answers with its own; `a` merges the answer. */
  function PushPullEvents(a: string, b: string, push: seq<Entry>, pull: seq<Entry>): seq<Event> {
    [Join(a, push), Receive(b, PushPull(push, true)), Answer(b, pull), Receive(a, PushPull(pull, false))]
  }

  lemma SendStep(n: Net, x: string, peers: seq<Entry>)
    requires x in n.members && IsSnapshot(peers, n.members[x].roster)
    ensures var t := Step(n, Join(x, peers));
            && t.members == n.members && t.owing == n.owing && t.archive == n.archive
            && PushPull(peers, true) in t.sent
    ensures x in n.owing ==>
              var t := Step(n, Answer(x, peers));
              && t.members == n.members && t.owing == n.owing - {x} && t.archive == n.archive
              && PushPull(peers, false) in t.sent
  {
    hide IsSnapshot;
  }

  lemma ReceiveStep(n: Net, x: string, msg: Msg)
    requires x in n.members && x !in n.owing && msg in n.sent
    ensures var t := Step(n, Receive(x, msg));
            && t.members == n.members[x := Received(n.members[x], msg.peers)]
            && t.owing == (if WantsReply(msg) then n.owing + {x} else n.owing) && t.archive == n.archive
  {
    hide Received;
  }

  lemma PushPullRun(n: Net, a: string, b: string, push: seq<Entry>, pull: seq<Entry>)
    requires a in n.members && b in n.members && a != b && a !in n.owing && b !in n.owing
    requires IsSnapshot(push, n.members[a].roster)
    requires IsSnapshot(pull, Received(n.members[b], push).roster)
    ensures var t := After(n, PushPullEvents(a, b, push, pull));
            && t.members == n.members[b := Received(n.members[b], push)][a := Received(n.members[a], pull)]
            && t.owing == n.owing && t.archive == n.archive
  {
    var e1, e2 := Join(a, push), Receive(b, PushPull(push, true));
    var e3, e4 := Answer(b, pull), Receive(a, PushPull(pull, false));
    hide After, Received, IsSnapshot, Step;
    AfterFour(n, e1, e2, e3, e4);
    var n1 := Step(n, e1);
    SendStep(n, a, push);
    var n2 := Step(n1, e2);
    ReceiveStep(n1, b, PushPull(push, true));
    var n3 := Step(n2, e3);
    SendStep(n2, b, pull);
    ReceiveStep(n3, a, PushPull(pull, false));
  }

  lemma MergesEqual(archive: Archive, ra: Roster, a: string, rb: Roster, b: string, push: seq<Entry>, pull: seq<Entry>)
    requires TrueRoster(archive, ra) && TrueRoster(archive, rb) && AllTrue(archive, push)
    requires a in ra && b in rb && a != b
    requires IsSnapshot(push, ra) && IsSnapshot(pull, Merged(rb, b, push))
    ensures Merged(ra, a, pull) == Merged(rb, b, push) <==> NotAhead(ra, a, rb, b)
  {
    hide Merged, TrueRoster, AllTrue, IsSnapshot, Better, Known;
    var newA, newB := Merged(ra, a, pull), Merged(rb, b, push);
    MergedTrue(archive, rb, b, push);
    forall x
      ensures Known(newA, x) == Better(ra, a, newB, x) && Known(newB, x) == Better(rb, b, ra, x)
      ensures x != a && x != b ==> Known(newA, x) == Known(newB, x)
    {
      MergedFrom(archive, rb, b, ra, push, x);
      MergedFrom(archive, ra, a, newB, pull, x);
      BothBetterIff(archive, ra, a, rb, b, newB, x);
    }
    BothBetterIff(archive, ra, a, rb, b, newB, a);
    BothBetterIff(archive, ra, a, rb, b, newB, b);
    if NotAhead(ra, a, rb, b) {
      forall x ensures Known(newA, x) == Known(newB, x) { }
      RosterEqual(newA, newB);
    }
  }

  /** One uninterrupted push-pull leaves both rosters equal, self entries included, if and only if neither
      side knew more about the other than the other says of itself; and it never sets either back. */
  lemma PushPullEqualizes(n: Net, a: string, b: string, push: seq<Entry>, pull: seq<Entry>)
    requires NetInv(n) && a in n.members && b in n.members && a != b && a !in n.owing && b !in n.owing
    requires IsSnapshot(push, n.members[a].roster)
    requires IsSnapshot(pull, Received(n.members[b], push).roster)
    ensures var t := After(n, PushPullEvents(a, b, push, pull));
            && a in t.members && b in t.members
            && (t.members[a].roster == t.members[b].roster <==>
                  NotAhead(n.members[a].roster, a, n.members[b].roster, b))
            && Forward(n.members[a].roster, t.members[a].roster) && Forward(n.members[b].roster, t.members[b].roster)
  {
    hide *;
    PushPullRun(n, a, b, push, pull);
    MemberFacts(n, a);
    MemberFacts(n, b);
    ReceivedRoster(n.members[a], pull);
    ReceivedRoster(n.members[b], push);
    SnapshotTrue(n.archive, a, n.members[a], push);
    MergedForward(n.members[a].roster, a, pull);
    MergedForward(n.members[b].roster, b, push);
    MergesEqual(n.archive, n.members[a].roster, a, n.members[b].roster, b, push, pull);
  }

  /** Members that hold their own latest record are never behind on themselves. */
  lemma LatestNotAhead(n: Net, a: string, b: string)
    requires NetInv(n) && a in n.members && b in n.members && OwnLatest(n, a) && OwnLatest(n, b)
    ensures NotAhead(n.members[a].roster, a, n.members[b].roster, b)
  {
    assert MemberOk(n.archive, a, n.members[a]) && MemberOk(n.archive, b, n.members[b]);
    var ra, rb := n.members[a].roster, n.members[b].roster;
    if a in rb { assert True(n.archive, rb[a]); }
    if b in ra { assert True(n.archive, ra[b]); }
  }

  lemma LatestAfterRun(evs: seq<Event>, x: string)
    requires NeverLate(QUIET, evs, x)
    ensures OwnLatest(After(QUIET, evs), x)
  {
    OverlappingLeaves(QUIET, evs, x);
    AlwaysLatestNow(QUIET, evs, x);
  }

  /** So after any run in which no departure of the two was published late, a push-pull makes their
      rosters equal. */
  lemma PushPullAfterRun(evs: seq<Event>, a: string, b: string, push: seq<Entry>, pull: seq<Entry>)
    requires NeverLate(QUIET, evs, a) && NeverLate(QUIET, evs, b)
    requires var n := After(QUIET, evs);
             && a in n.members && b in n.members && a != b && a !in n.owing && b !in n.owing
             && IsSnapshot(push, n.members[a].roster) && IsSnapshot(pull, Received(n.members[b], push).roster)
    ensures var t := After(After(QUIET, evs), PushPullEvents(a, b, push, pull));
            a in t.members && b in t.members && t.members[a].roster == t.members[b].roster
  {
    var n := After(QUIET, evs);
    ReachableIsTrue(evs);
    LatestAfterRun(evs, a);
    LatestAfterRun(evs, b);
    hide *;
    LatestNotAhead(n, a, b);
    PushPullEqualizes(n, a, b, push, pull);
  }

  // ---- A whole cluster ------------------------------------------------------------------------

  /** One push-pull started by member `x`, with the two snapshots it carries. */
  datatype Exchange = Exchange(x: string, push: seq<Entry>, pull: seq<Entry>)

  /** Nobody owes an answer, and every member holds its own latest record. */
  ghost predicate Calm(n: Net) {
    NetInv(n) && n.owing == {} && forall x | x in n.members :: OwnLatest(n, x)
  }

  ghost predicate CanExchange(n: Net, hub: string, ex: Exchange) {
    && hub in n.members && ex.x in n.members && ex.x != hub
    && IsSnapshot(ex.push, n.members[ex.x].roster)
    && IsSnapshot(ex.pull, Received(n.members[hub], ex.push).roster)
  }

  ghost function Exchanged(n: Net, hub: string, exs: seq<Exchange>): Net {
    if |exs| == 0 then n else
    var before, ex := Exchanged(n, hub, exs[..|exs| - 1]), exs[|exs| - 1];
    After(before, PushPullEvents(ex.x, hub, ex.push, ex.pull))
  }

  ghost predicate AllCanExchange(n: Net, hub: string, exs: seq<Exchange>) {
    |exs| == 0 ||
    (AllCanExchange(n, hub, exs[..|exs| - 1]) && CanExchange(Exchanged(n, hub, exs[..|exs| - 1]), hub, exs[|exs| - 1]))
  }

  /** Member `x` is among those that push-pulled. */
  ghost predicate Served(exs: seq<Exchange>, x: string) {
    exists i | 0 <= i < |exs| :: exs[i].x == x
  }

  /** Every member but the hub push-pulled at least once. */
  ghost predicate Covers(n: Net, hub: string, exs: seq<Exchange>) {
    forall x | x in n.members && x != hub :: Served(exs, x)
  }

  ghost function RosterOf(n: Net, x: string): Roster
    requires x in n.members
  {
    n.members[x].roster
  }

  lemma SelfKept(archive: Archive, x: string, m: Member, peers: seq<Entry>)
    requires MemberOk(archive, x, m)
    ensures var r := Received(m, peers).roster;
            x in r && x in m.roster && r[x] == m.roster[x]
  {
    MergedKeyed(m.roster, x, peers);
  }

  lemma LatestKept(n: Net, t: Net, x: string)
    requires x in n.members && x in t.members && t.archive == n.archive && OwnLatest(n, x)
    requires x in RosterOf(n, x) && x in RosterOf(t, x) && RosterOf(t, x)[x] == RosterOf(n, x)[x]
    ensures OwnLatest(t, x)
  { }

  lemma CalmIf(n: Net)
    requires NetInv(n) && n.owing == {} && forall x | x in n.members :: OwnLatest(n, x)
    ensures Calm(n)
  { }

  lemma ExchangeFacts(n: Net, hub: string, ex: Exchange)
    requires Calm(n) && CanExchange(n, hub, ex)
    ensures NetInv(n) && n.owing == {} && hub in n.members && ex.x in n.members && ex.x != hub
    ensures IsSnapshot(ex.push, n.members[ex.x].roster)
    ensures IsSnapshot(ex.pull, Received(n.members[hub], ex.push).roster)
    ensures OwnLatest(n, hub) && OwnLatest(n, ex.x)
    ensures n.members[hub].name == hub && MemberOk(n.archive, hub, n.members[hub])
    ensures MemberOk(n.archive, ex.x, n.members[ex.x])
  {
    hide Received, IsSnapshot;
    MemberFacts(n, hub);
    MemberFacts(n, ex.x);
  }

  lemma CalmMember(n: Net, y: string)
    requires Calm(n) && y in n.members
    ensures OwnLatest(n, y) && y in n.members[y].roster
  {
    MemberFacts(n, y);
  }

  lemma RosterFacts(n: Net)
    ensures forall x | x in n.members :: RosterOf(n, x) == n.members[x].roster
  { }

  /** A push-pull keeps the network calm, makes the two rosters equal, sets neither back and touches no
      other. */
  lemma ExchangeStep(n: Net, hub: string, ex: Exchange)
    requires Calm(n) && CanExchange(n, hub, ex)
    ensures var t := After(n, PushPullEvents(ex.x, hub, ex.push, ex.pull));
            && Calm(t) && t.members.Keys == n.members.Keys && t.archive == n.archive
            && RosterOf(t, ex.x) == RosterOf(t, hub)
            && Forward(RosterOf(n, hub), RosterOf(t, hub))
            && (forall y | y in n.members && y != hub && y != ex.x :: RosterOf(t, y) == RosterOf(n, y))
            && RosterOf(t, hub) == Merged(RosterOf(n, hub), hub, ex.push)
  {
    hide *;
    var t := After(n, PushPullEvents(ex.x, hub, ex.push, ex.pull));
    ExchangeFacts(n, hub, ex);
    PushPullRun(n, ex.x, hub, ex.push, ex.pull);
    RecordsAreTrue(n, PushPullEvents(ex.x, hub, ex.push, ex.pull));
    PushPullEqualizes(n, ex.x, hub, ex.push, ex.pull);
    LatestNotAhead(n, ex.x, hub);
    ReceivedRoster(n.members[hub], ex.push);
    RosterFacts(n);
    RosterFacts(t);
    forall y | y in t.members ensures OwnLatest(t, y) {
      CalmMember(n, y);
      SelfKept(n.archive, hub, n.members[hub], ex.push);
      SelfKept(n.archive, ex.x, n.members[ex.x], ex.pull);
      LatestKept(n, t, y);
    }
    CalmIf(t);
  }

  lemma ForwardTrans(r: Roster, s: Roster, t: Roster)
    requires Forward(r, s) && Forward(s, t)
    ensures Forward(r, t)
  {
    forall x ensures ForwardOn(r, t, x) { assert ForwardOn(r, s, x) && ForwardOn(s, t, x); }
  }

  lemma ForwardSame(r: Roster)
    ensures Forward(r, r)
  { }

  lemma ServedNone(x: string)
    ensures !Served([], x)
  { }

  lemma ServedLast(exs: seq<Exchange>, x: string)
    requires |exs| > 0
    ensures Served(exs, x) <==> Served(exs[..|exs| - 1], x) || exs[|exs| - 1].x == x
  {
    if Served(exs[..|exs| - 1], x) {
      var i :| 0 <= i < |exs| - 1 && exs[..|exs| - 1][i].x == x;
      assert exs[i].x == x;
    }
  }

  /** After a round of exchanges, nobody served in it is ahead of the hub. */
  lemma {:induction false} FirstRound(n: Net, hub: string, exs: seq<Exchange>, x: string)
    requires Calm(n) && hub in n.members && AllCanExchange(n, hub, exs)
    ensures var t := Exchanged(n, hub, exs);
            && Calm(t) && t.members.Keys == n.members.Keys && t.archive == n.archive
            && (x in n.members && Served(exs, x) ==> Forward(RosterOf(t, x), RosterOf(t, hub)))
  {
    if |exs| == 0 {
    } else {
      var before, ex := exs[..|exs| - 1], exs[|exs| - 1];
      var m, t := Exchanged(n, hub, before), Exchanged(n, hub, exs);
      FirstRound(n, hub, before, x);
      ServedLast(exs, x);
      hide Calm, CanExchange, After, Forward, RosterOf, Served;
      ExchangeStep(m, hub, ex);
      ForwardSame(RosterOf(t, hub));
      if x in n.members && Served(exs, x) && x != ex.x && x != hub {
        ForwardTrans(RosterOf(t, x), RosterOf(m, hub), RosterOf(t, hub));
      }
    }
  }

  /** Merging what one already has changes nothing. */
  lemma {:induction false} MergedBelow(r: Roster, self: string, other: Roster, peers: seq<Entry>)
    requires Forward(other, r)
    requires forall i | 0 <= i < |peers| :: peers[i].name in other && peers[i] == other[peers[i].name]
    ensures Merged(r, self, peers) == r
  {
    if |peers| == 0 {
    } else {
      MergedBelow(r, self, other, peers[..|peers| - 1]);
      assert ForwardOn(other, r, peers[|peers| - 1].name);
    }
  }

  ghost predicate NobodyAhead(n: Net, hub: string) {
    hub in n.members && forall x | x in n.members :: Forward(RosterOf(n, x), RosterOf(n, hub))
  }

  /** Once nobody is ahead of the hub, an exchange only hands out what the hub has. */
  lemma HandsOutStep(n: Net, hub: string, ex: Exchange)
    requires Calm(n) && CanExchange(n, hub, ex) && NobodyAhead(n, hub)
    ensures var t := After(n, PushPullEvents(ex.x, hub, ex.push, ex.pull));
            && Calm(t) && t.members.Keys == n.members.Keys
            && RosterOf(t, hub) == RosterOf(n, hub) == RosterOf(t, ex.x)
            && (forall y | y in n.members && y != hub && y != ex.x :: RosterOf(t, y) == RosterOf(n, y))
            && NobodyAhead(t, hub)
  {
    hide Calm, After, Forward, Received, Merged;
    ExchangeStep(n, hub, ex);
    MergedBelow(RosterOf(n, hub), hub, RosterOf(n, ex.x), ex.push);
    ForwardSame(RosterOf(n, hub));
  }

  lemma {:induction false} SecondRound(n: Net, hub: string, exs: seq<Exchange>, x: string)
    requires Calm(n) && hub in n.members && NobodyAhead(n, hub) && AllCanExchange(n, hub, exs)
    ensures var t := Exchanged(n, hub, exs);
            && Calm(t) && NobodyAhead(t, hub) && t.members.Keys == n.members.Keys
            && RosterOf(t, hub) == RosterOf(n, hub)
            && (x in n.members && Served(exs, x) ==> RosterOf(t, x) == RosterOf(n, hub))
  {
    hide Calm, CanExchange, After, RosterOf, NobodyAhead, Served;
    if |exs| == 0 {
      ServedNone(x);
    } else {
      SecondRound(n, hub, exs[..|exs| - 1], x);
      ServedLast(exs, x);
      HandsOutStep(Exchanged(n, hub, exs[..|exs| - 1]), hub, exs[|exs| - 1]);
    }
  }

  /** A cluster of any size converges: after every other member push-pulled with one member, and then each
      of them once more, in any order and with repetitions, all rosters are equal. */
  lemma ClusterConverges(n: Net, hub: string, first: seq<Exchange>, second: seq<Exchange>)
    requires Calm(n) && hub in n.members
    requires AllCanExchange(n, hub, first) && Covers(n, hub, first)
    requires AllCanExchange(Exchanged(n, hub, first), hub, second) && Covers(n, hub, second)
    ensures var t := Exchanged(Exchanged(n, hub, first), hub, second);
            && t.members.Keys == n.members.Keys
            && forall x, y | x in t.members && y in t.members :: RosterOf(t, x) == RosterOf(t, y)
  {
    hide Calm, Exchanged, AllCanExchange, Served, RosterOf, Forward;
    var m := Exchanged(n, hub, first);
    FirstRound(n, hub, first, hub);
    ForwardSame(RosterOf(m, hub));
    forall x | x in m.members ensures Forward(RosterOf(m, x), RosterOf(m, hub)) { FirstRound(n, hub, first, x); }
    var t := Exchanged(m, hub, second);
    SecondRound(m, hub, second, hub);
    forall x | x in t.members ensures RosterOf(t, x) == RosterOf(t, hub) { SecondRound(m, hub, second, x); }
  }

  /** In particular after any run in which no member published a departure late. */
  lemma CalmAfterRun(evs: seq<Event>)
    requires After(QUIET, evs).owing == {}
    requires forall x | x in After(QUIET, evs).members :: NeverLate(QUIET, evs, x)
    ensures Calm(After(QUIET, evs))
  {
    hide *;
    ReachableIsTrue(evs);
    forall x | x in After(QUIET, evs).members ensures OwnLatest(After(QUIET, evs), x) {
      LatestAfterRun(evs, x);
    }
    CalmIf(After(QUIET, evs));
  }
}
