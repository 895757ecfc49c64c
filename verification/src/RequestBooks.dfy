/** The accounts of one connection's requests
    (crates/local/ipc-server/src/connection.rs): which wait, which are in
    flight, which have been answered. Every change the connection makes to them
    is one of the steps below, and every step keeps the balance. */
module RequestBooks {
  import opened Common

  type Id = string

  /** A request handed to the port; `answered` when a cancel or its deadline
      answered it first. */
  datatype Held = Held(answered: bool, deadline: nat)

  datatype Books = Books(
    waiting: seq<Id>, flight: map<Id, Held>, tasks: map<nat, Id>,
    asked: multiset<Id>, answers: multiset<Id>)

  ghost predicate Unanswered(flight: map<Id, Held>, id: Id) {
    id in flight && !flight[id].answered
  }

  ghost predicate Outstanding(b: Books, id: Id) {
    id in b.waiting || Unanswered(b.flight, id)
  }

  /** Each time `id` was asked it was answered once, is owed an answer already
      decided, or is outstanding; and it is outstanding once at most. */
  ghost predicate BalancedAt(b: Books, owing: multiset<Id>, id: Id) {
    b.asked[id] == b.answers[id] + owing[id] + if Outstanding(b, id) then 1 else 0
  }

  ghost predicate Balanced(b: Books, owing: multiset<Id>) {
    forall id :: BalancedAt(b, owing, id)
  }

  /** A request is in one place. */
  ghost predicate ApartAt(b: Books, i: nat, j: nat) {
    && (i < j < |b.waiting| ==> b.waiting[i] != b.waiting[j])
    && (i < |b.waiting| ==> b.waiting[i] !in b.flight)
  }

  ghost predicate Apart(b: Books) {
    forall i: nat, j: nat :: ApartAt(b, i, j)
  }

  /** Each task answers a request in flight, and no two answer one. */
  ghost predicate TaskedAt(b: Books, t: nat, u: nat) {
    t in b.tasks ==>
      b.tasks[t] in b.flight && (u in b.tasks && t != u ==> b.tasks[t] != b.tasks[u])
  }

  ghost predicate Tasked(b: Books) {
    |b.tasks| == |b.flight| && forall t: nat, u: nat :: TaskedAt(b, t, u)
  }

  ghost predicate Sound(b: Books, owing: multiset<Id>) {
    Balanced(b, owing) && Apart(b) && Tasked(b)
  }

  ghost function UnansweredIds(flight: map<Id, Held>): set<Id> {
    set id | id in flight && !flight[id].answered
  }

  /** How many requests still have no answer decided. */
  ghost function Open(b: Books): nat {
    |b.waiting| + |UnansweredIds(b.flight)|
  }

  // -----------------------------------------------------------------
  // Steps

  /** A request that waits is not in flight, and waits once. */
  lemma WaitsApart(b: Books, k: nat)
    requires Apart(b) && k < |b.waiting|
    ensures b.waiting[k] !in b.flight
    ensures forall i :: 0 <= i < |b.waiting| && i != k ==> b.waiting[i] != b.waiting[k]
  {
    assert ApartAt(b, k, k);
    forall i | 0 <= i < |b.waiting| && i != k
      ensures b.waiting[i] != b.waiting[k]
    {
      assert ApartAt(b, i, k) && ApartAt(b, k, i);
    }
  }

  lemma HeldApart(b: Books, id: Id)
    requires Apart(b) && id in b.flight
    ensures id !in b.waiting
  {
    forall i | 0 <= i < |b.waiting|
      ensures b.waiting[i] != id
    {
      assert ApartAt(b, i, i);
    }
  }

  /** Asked, and nothing more yet. */
  lemma Asked(b: Books, owing: multiset<Id>, id: Id)
    requires Sound(b, owing)
    ensures var c := b.(asked := b.asked + multiset{id});
            Sound(c, owing + multiset{id}) && Open(c) == Open(b)
  {
    var c := b.(asked := b.asked + multiset{id});
    SamePlaces(b, c);
    forall x
      ensures BalancedAt(c, owing + multiset{id}, x)
    {
      assert BalancedAt(b, owing, x);
    }
  }

  /** Places and tasks are as they were. */
  lemma SamePlaces(b: Books, c: Books)
    requires Apart(b) && Tasked(b)
    requires c.waiting == b.waiting && c.flight.Keys == b.flight.Keys && c.tasks == b.tasks
    ensures Apart(c) && Tasked(c)
  {
    forall i: nat, j: nat
      ensures ApartAt(c, i, j)
    {
      assert ApartAt(b, i, j);
    }
    forall t: nat, u: nat
      ensures TaskedAt(c, t, u)
    {
      assert TaskedAt(b, t, u);
    }
  }

  /** A request new to flight, in a new task. */
  lemma NewTask(b: Books, c: Books, id: Id, t: nat, deadline: nat)
    requires Tasked(b) && id !in b.flight && t !in b.tasks
    requires c.flight == b.flight[id := Held(false, deadline)] && c.tasks == b.tasks[t := id]
    ensures Tasked(c)
  {
    forall u: nat, v: nat
      ensures TaskedAt(c, u, v)
    {
      assert TaskedAt(b, u, v) && TaskedAt(b, v, u);
    }
  }

  /** A request just asked is handed over. */
  lemma Dispatched(b: Books, owing: multiset<Id>, id: Id, t: nat, deadline: nat)
    requires Sound(b, owing + multiset{id}) && id !in b.waiting && id !in b.flight && t !in b.tasks
    ensures var c := b.(flight := b.flight[id := Held(false, deadline)], tasks := b.tasks[t := id]);
            Sound(c, owing) && Open(c) == Open(b) + 1
  {
    var c := b.(flight := b.flight[id := Held(false, deadline)], tasks := b.tasks[t := id]);
    NewUnanswered(b.flight, id, deadline);
    NewTask(b, c, id, t, deadline);
    forall x
      ensures BalancedAt(c, owing, x)
    {
      assert BalancedAt(b, owing + multiset{id}, x);
    }
    forall i: nat, j: nat
      ensures ApartAt(c, i, j)
    {
      assert ApartAt(b, i, j);
    }
  }

  /** A request just asked is left to wait. */
  lemma Enqueued(b: Books, owing: multiset<Id>, id: Id)
    requires Sound(b, owing + multiset{id}) && id !in b.waiting && id !in b.flight
    ensures var c := b.(waiting := b.waiting + [id]);
            Sound(c, owing) && Open(c) == Open(b) + 1
  {
    var c := b.(waiting := b.waiting + [id]);
    forall x
      ensures BalancedAt(c, owing, x)
    {
      assert BalancedAt(b, owing + multiset{id}, x);
    }
    forall i: nat, j: nat
      ensures ApartAt(c, i, j)
    {
      assert ApartAt(b, i, j);
    }
    forall t: nat, u: nat
      ensures TaskedAt(c, t, u)
    {
      assert TaskedAt(b, t, u);
    }
  }

  /** The first that waits is handed over. */
  lemma Promoted(b: Books, owing: multiset<Id>, t: nat, deadline: nat)
    requires Sound(b, owing) && b.waiting != [] && t !in b.tasks
    ensures var id := b.waiting[0];
            var c := b.(waiting := b.waiting[1..], flight := b.flight[id := Held(false, deadline)],
                        tasks := b.tasks[t := id]);
            Sound(c, owing) && Open(c) == Open(b)
  {
    var id := b.waiting[0];
    var c := b.(waiting := b.waiting[1..], flight := b.flight[id := Held(false, deadline)],
                tasks := b.tasks[t := id]);
    WaitsApart(b, 0);
    NewUnanswered(b.flight, id, deadline);
    NewTask(b, c, id, t, deadline);
    forall x
      ensures BalancedAt(c, owing, x)
    {
      assert BalancedAt(b, owing, x);
      assert x in b.waiting <==> x == id || x in b.waiting[1..];
    }
    forall i: nat, j: nat
      ensures ApartAt(c, i, j)
    {
      assert ApartAt(b, i + 1, j + 1);
    }
  }

  /** An answer is decided for one that waits, and it waits no longer. */
  lemma Dropped(b: Books, owing: multiset<Id>, k: nat)
    requires Sound(b, owing) && k < |b.waiting|
    ensures var c := b.(waiting := b.waiting[..k] + b.waiting[k + 1..]);
            Sound(c, owing + multiset{b.waiting[k]}) && Open(c) == Open(b) - 1
  {
    var id := b.waiting[k];
    var c := b.(waiting := b.waiting[..k] + b.waiting[k + 1..]);
    WaitsApart(b, k);
    forall x
      ensures BalancedAt(c, owing + multiset{id}, x)
    {
      assert BalancedAt(b, owing, x);
      MembersWithout(b.waiting, k, x);
    }
    forall i: nat, j: nat
      ensures ApartAt(c, i, j)
    {
      assert ApartAt(b, if i < k then i else i + 1, if j < k then j else j + 1);
    }
    forall t: nat, u: nat
      ensures TaskedAt(c, t, u)
    {
      assert TaskedAt(b, t, u);
    }
  }

  lemma MembersWithout(s: seq<Id>, k: nat, x: Id)
    requires k < |s| && forall i :: 0 <= i < |s| && i != k ==> s[i] != s[k]
    ensures x in s[..k] + s[k + 1..] <==> x in s && x != s[k]
  {
    assert s == s[..k] + [s[k]] + s[k + 1..];
  }

  /** An answer is decided for one in flight, whose outcome is discarded. */
  lemma Settled(b: Books, owing: multiset<Id>, id: Id)
    requires Sound(b, owing) && Unanswered(b.flight, id)
    ensures var c := b.(flight := b.flight[id := b.flight[id].(answered := true)]);
            Sound(c, owing + multiset{id}) && Open(c) == Open(b) - 1
  {
    var c := b.(flight := b.flight[id := b.flight[id].(answered := true)]);
    assert UnansweredIds(c.flight) == UnansweredIds(b.flight) - {id};
    assert c.flight.Keys == b.flight.Keys;
    SamePlaces(b, c);
    HeldApart(b, id);
    forall x
      ensures BalancedAt(c, owing + multiset{id}, x)
    {
      assert BalancedAt(b, owing, x);
    }
  }

  /** A task ends, and its request is owed the outcome unless it was settled. */
  lemma Ended(b: Books, owing: multiset<Id>, t: nat)
    requires Sound(b, owing) && t in b.tasks
    ensures b.tasks[t] in b.flight
    ensures var id := b.tasks[t];
            var c := b.(tasks := b.tasks - {t}, flight := b.flight - {id});
            if b.flight[id].answered then Sound(c, owing) && Open(c) == Open(b)
            else Sound(c, owing + multiset{id}) && Open(c) == Open(b) - 1
  {
    assert TaskedAt(b, t, t);
    var id := b.tasks[t];
    var c := b.(tasks := b.tasks - {t}, flight := b.flight - {id});
    var owed := if b.flight[id].answered then owing else owing + multiset{id};
    LessOne(b.tasks, t);
    LessOne(b.flight, id);
    OneLessUnanswered(b.flight, id);
    HeldApart(b, id);
    forall x
      ensures BalancedAt(c, owed, x)
    {
      assert BalancedAt(b, owing, x);
    }
    forall i: nat, j: nat
      ensures ApartAt(c, i, j)
    {
      assert ApartAt(b, i, j);
    }
    forall u: nat, v: nat
      ensures TaskedAt(c, u, v)
    {
      assert TaskedAt(b, u, v) && TaskedAt(b, u, t);
    }
  }

  lemma LessOne<K, V>(m: map<K, V>, k: K)
    requires k in m
    ensures |m - {k}| == |m| - 1
  {
    assert (m - {k}).Keys == m.Keys - {k};
  }

  lemma OneLessUnanswered(flight: map<Id, Held>, id: Id)
    requires id in flight
    ensures |UnansweredIds(flight - {id})|
         == |UnansweredIds(flight)| - if flight[id].answered then 0 else 1
  {
    assert UnansweredIds(flight - {id}) == UnansweredIds(flight) - {id};
  }

  /** An answer owed is given. */
  lemma Answered(b: Books, owing: multiset<Id>, id: Id)
    requires Sound(b, owing + multiset{id})
    ensures var c := b.(answers := b.answers + multiset{id});
            Sound(c, owing) && Open(c) == Open(b)
  {
    var c := b.(answers := b.answers + multiset{id});
    SamePlaces(b, c);
    forall x
      ensures BalancedAt(c, owing, x)
    {
      assert BalancedAt(b, owing + multiset{id}, x);
    }
  }

  lemma NewUnanswered(flight: map<Id, Held>, id: Id, deadline: nat)
    requires id !in flight
    ensures |UnansweredIds(flight[id := Held(false, deadline)])| == |UnansweredIds(flight)| + 1
    ensures |flight[id := Held(false, deadline)]| == |flight| + 1
  {
    assert UnansweredIds(flight[id := Held(false, deadline)]) == UnansweredIds(flight) + {id};
  }

  /** No more are without an answer than there is room for. */
  lemma OpenIsBounded(b: Books)
    ensures Open(b) <= |b.waiting| + |b.flight|
  {
    SubsetsAreSmaller(UnansweredIds(b.flight), b.flight.Keys);
  }
}
