/** One member's roster: last incarnation wins, and nobody is believed about oneself. */
module Membership {

  datatype Status = Alive | Leaving | Left | Failed

  datatype Entry = Entry(name: string, addr: string, status: Status, incarnation: nat)

  type Roster = map<string, Entry>

  datatype Msg =
    | PushPull(peers: seq<Entry>, reply: bool)
    | Gossip(peers: seq<Entry>)

  predicate WantsReply(m: Msg) {
    m.PushPull? && m.reply
  }

  /** Whether a report beats what the roster holds. */
  predicate Supersedes(r: Roster, w: Entry) {
    w.name !in r || w.incarnation > r[w.name].incarnation
  }

  function MergeOne(r: Roster, self: string, w: Entry): Roster {
    if w.name != self && Supersedes(r, w) then r[w.name := w] else r
  }

  function Merged(r: Roster, self: string, peers: seq<Entry>): Roster {
    if |peers| == 0 then r else MergeOne(Merged(r, self, peers[..|peers| - 1]), self, peers[|peers| - 1])
  }

  /** `peers` lists the roster's records, each once, in some order. */
  ghost predicate IsSnapshot(peers: seq<Entry>, r: Roster) {
    && |peers| == |r|
    && (forall i | 0 <= i < |peers| :: peers[i].name in r && peers[i] == r[peers[i].name])
    && (forall x | x in r :: r[x] in peers)
  }

  /** Every record sits under its own name. */
  ghost predicate Keyed(r: Roster) {
    forall x | x in r :: r[x].name == x
  }

  // ---- Merging is a join ----------------------------------------------------------------------

  /** Two records of the same member and incarnation are the same record. */
  ghost predicate Agree(a: Entry, b: Entry) {
    a.name == b.name && a.incarnation == b.incarnation ==> a == b
  }

  ghost predicate Consistent(r: Roster, peers: seq<Entry>) {
    && (forall i, j | 0 <= i < |peers| && 0 <= j < |peers| :: Agree(peers[i], peers[j]))
    && (forall x, i | x in r && 0 <= i < |peers| :: Agree(r[x], peers[i]))
  }

  /** The record is one that `x` could end with: what the roster had, or a report about `x`. */
  ghost predicate Reported(r: Roster, self: string, peers: seq<Entry>, x: string, e: Entry) {
    (x in r && e == r[x]) || (x != self && e.name == x && e in peers)
  }

  lemma {:induction false} MergedKeyed(r: Roster, self: string, peers: seq<Entry>)
    requires Keyed(r)
    ensures Keyed(Merged(r, self, peers))
    ensures self in r ==> self in Merged(r, self, peers) && Merged(r, self, peers)[self] == r[self]
    ensures self !in r ==> self !in Merged(r, self, peers)
  {
    if |peers| == 0 {
    } else {
      MergedKeyed(r, self, peers[..|peers| - 1]);
    }
  }

  /** The merged roster knows exactly the members somebody reported, and for each of them holds a
      reported record that no reported record beats. */
  lemma {:induction false} MergedIsBest(r: Roster, self: string, peers: seq<Entry>, x: string)
    requires Keyed(r)
    ensures var m := Merged(r, self, peers);
            && (x in m ==> Reported(r, self, peers, x, m[x]))
            && (forall e | Reported(r, self, peers, x, e) :: x in m && e.incarnation <= m[x].incarnation)
  {
    if |peers| == 0 {
    } else {
      var n := |peers| - 1;
      MergedIsBest(r, self, peers[..n], x);
      MergedKeyed(r, self, peers[..n]);
      assert peers == peers[..n] + [peers[n]];
      assert forall e :: Reported(r, self, peers, x, e) <==>
                         Reported(r, self, peers[..n], x, e) || (x != self && peers[n].name == x && e == peers[n]);
    }
  }

  lemma ReportedAgree(r: Roster, self: string, peers: seq<Entry>, x: string, a: Entry, b: Entry)
    requires Keyed(r) && Consistent(r, peers)
    requires Reported(r, self, peers, x, a) && Reported(r, self, peers, x, b) && a.incarnation == b.incarnation
    ensures a == b
  {
    assert Agree(a, b);
  }

  /** Order and multiplicity of the reports do not matter: any two message histories with the same
      records leave the same roster. */
  lemma MergeOrderIrrelevant(r: Roster, self: string, a: seq<Entry>, b: seq<Entry>)
    requires Keyed(r) && Consistent(r, a)
    requires forall e :: e in a <==> e in b
    ensures Merged(r, self, a) == Merged(r, self, b)
  {
    var m, n := Merged(r, self, a), Merged(r, self, b);
    forall x ensures (x in m <==> x in n) && (x in m ==> m[x] == n[x]) {
      MergedIsBest(r, self, a, x);
      MergedIsBest(r, self, b, x);
      forall e ensures Reported(r, self, a, x, e) <==> Reported(r, self, b, x, e) { }
      if x in m { ReportedAgree(r, self, a, x, m[x], n[x]); }
    }
  }

  /** Nor does grouping: merging two messages in turn is merging their records together. */
  lemma {:induction false} MergeGroupingIrrelevant(r: Roster, self: string, a: seq<Entry>, b: seq<Entry>)
    ensures Merged(Merged(r, self, a), self, b) == Merged(r, self, a + b)
    decreases |b|
  {
    if |b| == 0 {
      assert a + b == a;
    } else {
      MergeGroupingIrrelevant(r, self, a, b[..|b| - 1]);
      assert (a + b)[..|a + b| - 1] == a + b[..|b| - 1];
    }
  }

  // ---- The member itself ----------------------------------------------------------------------

  /** A member's volatile state. */
  datatype Member = Member(name: string, addr: string, roster: Roster, incarnation: nat)

  function Started(name: string, addr: string): Member {
    Member(name, addr, map[name := Entry(name, addr, Alive, 0)], 0)
  }

  function Received(m: Member, peers: seq<Entry>): Member {
    m.(roster := Merged(m.roster, m.name, peers))
  }

  /** A departure draws a number of its own. */
  function Bumped(m: Member): Member {
    m.(incarnation := m.incarnation + 1)
  }

  /** And is then published under that number, which other departures may have overtaken. */
  function Published(m: Member, inc: nat): Member {
    if m.name in m.roster
    then m.(roster := m.roster[m.name := m.roster[m.name].(status := Left, incarnation := inc)]) else m
  }

  class GossipMembership {
    const name: string
    const addr: string
    var roster: Roster
    var incarnation: nat

    function View(): Member
      reads this
    {
      Member(name, addr, roster, incarnation)
    }

    /** Records sit under their own names, and the member knows itself. */
    ghost predicate Valid()
      reads this
    {
      Keyed(roster) && name in roster
    }

    constructor Start(name: string, bound: string)
      ensures Valid() && View() == Started(name, bound)
    {
      this.name, addr := name, bound;
      roster, incarnation := map[name := Entry(name, bound, Alive, 0)], 0;
    }

    method Merge(peers: seq<Entry>)
      requires Valid()
      modifies this`roster
      ensures Valid()
      ensures View() == Received(old(View()), peers)
    {
      MergedKeyed(roster, name, peers);
      for i := 0 to |peers|
        invariant roster == Merged(old(roster), name, peers[..i])
      {
        var w := peers[i];
        assert peers[..i + 1][..i] == peers[..i];
        if w.name != name {
          var supersedes := w.name !in roster || w.incarnation > roster[w.name].incarnation;
          if supersedes {
            roster := roster[w.name := w];
          }
        }
      }
      assert peers[..|peers|] == peers;
    }

    method Snapshot() returns (peers: seq<Entry>)
      requires Valid()
      ensures IsSnapshot(peers, roster)
    {
      peers := [];
      var todo := roster.Keys;
      while todo != {}
        invariant todo <= roster.Keys && |peers| + |todo| == |roster.Keys|
        invariant forall i | 0 <= i < |peers| :: peers[i].name in roster && peers[i] == roster[peers[i].name]
        invariant forall x | x in roster :: x in todo || roster[x] in peers
        decreases |todo|
      {
        var x :| x in todo;
        peers, todo := peers + [roster[x]], todo - {x};
      }
    }

    /** Services one datagram, and says whether its sender asked for an answer. */
    method Receive(msg: Msg) returns (owed: bool)
      requires Valid()
      modifies this`roster
      ensures Valid() && View() == Received(old(View()), msg.peers)
      ensures owed <==> WantsReply(msg)
    {
      Merge(msg.peers);
      owed := msg.PushPull? && msg.reply;
    }

    /** The answer to a push-pull: the roster as it is when the answer is made. */
    method Answer() returns (msg: Msg)
      requires Valid()
      ensures msg.PushPull? && !msg.reply && IsSnapshot(msg.peers, roster)
    {
      var peers := Snapshot();
      msg := PushPull(peers, false);
    }

    method Join() returns (msg: Msg)
      requires Valid()
      ensures msg.PushPull? && msg.reply && IsSnapshot(msg.peers, roster)
    {
      var peers := Snapshot();
      msg := PushPull(peers, true);
    }

    /** First half of leaving, before the roster is locked: draw the next number. */
    method DrawNumber() returns (inc: nat)
      requires Valid()
      modifies this`incarnation
      ensures Valid() && View() == Bumped(old(View()))
      ensures inc == incarnation > old(incarnation)
    {
      incarnation := incarnation + 1;
      inc := incarnation;
    }

    /** Second half: mark oneself left under the number drawn. */
    method PublishLeft(inc: nat)
      requires Valid()
      modifies this`roster
      ensures Valid() && View() == Published(old(View()), inc)
    {
      if name in roster {
        roster := roster[name := roster[name].(status := Left, incarnation := inc)];
      }
    }
  }
}
