/** What the runtime keeps in memory for outgoing messages: the files queued per message, and the notices
    already given. */
module Outbox {
  import opened Options

  datatype Delivery = Delivery(message: string, file: string)

  // ---------- Queued deliveries ----------

  type Queues = map<string, seq<Delivery>>

  datatype Event = Queue(delivery: Delivery) | Take(message: string)

  function Queued(queues: Queues, message: string): seq<Delivery> {
    if message in queues then queues[message] else []
  }

  function AfterEvent(queues: Queues, e: Event): Queues {
    match e
    case Queue(d) => queues[d.message := Queued(queues, d.message) + [d]]
    case Take(m) =>
      if |Queued(queues, m)| <= 1 then queues - {m} else queues[m := queues[m][1..]]
  }

  function Given(queues: Queues, e: Event): seq<Delivery> {
    if e.Take? && Queued(queues, e.message) != [] then [Queued(queues, e.message)[0]] else []
  }

  function AfterAll(events: seq<Event>): Queues {
    if events == [] then map[] else AfterEvent(AfterAll(events[..|events| - 1]), events[|events| - 1])
  }

  /** The deliveries handed out for a message over a run, in order. */
  function Taken(events: seq<Event>, message: string): seq<Delivery> {
    if events == [] then []
    else
      var init, last := events[..|events| - 1], events[|events| - 1];
      Taken(init, message) + (if last.Take? && last.message == message then Given(AfterAll(init), last) else [])
  }

  function EverQueued(events: seq<Event>, message: string): seq<Delivery> {
    if events == [] then []
    else
      var init, last := events[..|events| - 1], events[|events| - 1];
      EverQueued(init, message) + (if last.Queue? && last.delivery.message == message then [last.delivery] else [])
  }

  /** Over any run, what was taken for a message followed by what is still queued for it is what was queued
      for it, in order; so nothing is lost, repeated or handed to another message, and no empty queue is kept. */
  lemma {:induction false} DeliveriesAreConserved(events: seq<Event>, message: string)
    ensures Taken(events, message) + Queued(AfterAll(events), message) == EverQueued(events, message)
    ensures message in AfterAll(events) ==> AfterAll(events)[message] != []
    decreases |events|
  {
    if events != [] {
      var init, last := events[..|events| - 1], events[|events| - 1];
      DeliveriesAreConserved(init, message);
      var before := Queued(AfterAll(init), message);
      if last.Take? && last.message == message && before != [] {
        assert before == [before[0]] + before[1..];
      }
    }
  }

  /** Taking gives nothing exactly when everything queued for the message has been taken. */
  lemma TakeGivesNothingIff(events: seq<Event>, message: string)
    ensures Given(AfterAll(events), Take(message)) == [] <==> Taken(events, message) == EverQueued(events, message)
  {
    DeliveriesAreConserved(events, message);
    var taken, queued := Taken(events, message), Queued(AfterAll(events), message);
    assert |taken + queued| == |taken| + |queued|;
    assert taken + [] == taken;
  }

  lemma OneMoreEvent(events: seq<Event>, e: Event, message: string)
    ensures AfterAll(events + [e]) == AfterEvent(AfterAll(events), e)
    ensures Taken(events + [e], message) ==
              Taken(events, message) + (if e.Take? && e.message == message then Given(AfterAll(events), e) else [])
  {
    assert (events + [e])[..|events|] == events;
  }

  class PendingDeliveries {
    var queues: Queues
    ghost var events: seq<Event>

    ghost predicate Valid()
      reads this
    {
      queues == AfterAll(events)
    }

    constructor ()
      ensures Valid() && events == []
    {
      queues, events := map[], [];
    }

    method Add(d: Delivery)
      requires Valid()
      modifies this
      ensures Valid() && events == old(events) + [Queue(d)]
    {
      if d.message !in queues {
        queues := queues[d.message := []];
      }
      queues := queues[d.message := queues[d.message] + [d]];
      OneMoreEvent(events, Queue(d), d.message);
      events := events + [Queue(d)];
    }

    /** Takes the oldest delivery still queued for the message. */
    method TakeFor(message: string) returns (d: Option<Delivery>)
      requires Valid()
      modifies this
      ensures Valid() && events == old(events) + [Take(message)]
      ensures Taken(events, message) == old(Taken(events, message)) + (if d.Some? then [d.value] else [])
      ensures d.None? <==> old(Taken(events, message) == EverQueued(events, message))
    {
      hide AfterAll, Taken, EverQueued;
      TakeGivesNothingIff(events, message);
      DeliveriesAreConserved(events, message);
      OneMoreEvent(events, Take(message), message);
      events := events + [Take(message)];
      if message !in queues {
        assert queues - {message} == queues;
        return None;
      }
      d := Some(queues[message][0]);
      queues := queues[message := queues[message][1..]];
      if queues[message] == [] {
        queues := queues - {message};
        assert queues == old(queues) - {message};
      }
    }
  }

  // ---------- Notices ----------

  /** A notice kind and the session it is for. */
  type Key = (string, string)

  /** An attempt to give a notice, and whether sending it works when it is tried. */
  datatype Attempt = Attempt(key: Key, message: string, works: bool)

  predicate Suppressed(given: map<Key, string>, a: Attempt) {
    a.message != [] && a.key in given && given[a.key] == a.message
  }

  predicate Succeeds(given: map<Key, string>, a: Attempt) {
    !Suppressed(given, a) && a.works
  }

  function AfterAttempt(given: map<Key, string>, a: Attempt): map<Key, string> {
    if Succeeds(given, a) && a.message != [] then given[a.key := a.message] else given
  }

  function AfterAttempts(attempts: seq<Attempt>): map<Key, string> {
    if attempts == [] then map[] else AfterAttempt(AfterAttempts(attempts[..|attempts| - 1]), attempts[|attempts| - 1])
  }

  /** The `i`-th attempt of the run sends its notice. */
  predicate Sent(attempts: seq<Attempt>, i: nat)
    requires i < |attempts|
  {
    Succeeds(AfterAttempts(attempts[..i]), attempts[i])
  }

  /** The `i`-th attempt sends a notice for this key and a named message. */
  predicate SentFor(attempts: seq<Attempt>, i: nat, key: Key)
    requires i < |attempts|
  {
    Sent(attempts, i) && attempts[i].key == key && attempts[i].message != []
  }

  /** The remembered message of a key is that of the last notice sent for it. */
  lemma {:induction false} RememberedIsLastSent(attempts: seq<Attempt>, n: nat, key: Key, i: nat)
    requires i < n <= |attempts| && SentFor(attempts, i, key)
    requires forall j :: i < j < n ==> !SentFor(attempts, j, key)
    ensures key in AfterAttempts(attempts[..n]) && AfterAttempts(attempts[..n])[key] == attempts[i].message
    decreases n
  {
    assert attempts[..n][..n - 1] == attempts[..n - 1];
    if n - 1 > i {
      RememberedIsLastSent(attempts, n - 1, key, i);
      assert !SentFor(attempts, n - 1, key);
    }
  }

  lemma SentIsNotRemembered(attempts: seq<Attempt>, j: nat)
    requires j < |attempts| && Sent(attempts, j) && attempts[j].message != []
    ensures var given := AfterAttempts(attempts[..j]);
            attempts[j].key in given ==> given[attempts[j].key] != attempts[j].message
  {
  }

  /** Two notices of one kind to one session for the same named message are always separated by one for
      another message. */
  lemma RepeatedNoticesAreSeparated(attempts: seq<Attempt>, i: nat, j: nat)
    requires i < j < |attempts| && Sent(attempts, i) && Sent(attempts, j)
    requires attempts[i].key == attempts[j].key && attempts[i].message == attempts[j].message != []
    ensures exists k :: i < k < j && SentFor(attempts, k, attempts[i].key) && attempts[k].message != attempts[i].message
  {
    SentIsNotRemembered(attempts, j);
    var k := LastSentBefore(attempts, i, j);
    RememberedIsLastSent(attempts, j, attempts[i].key, k);
  }

  lemma LastSentBefore(attempts: seq<Attempt>, i: nat, n: nat) returns (k: nat)
    requires i < n <= |attempts| && Sent(attempts, i) && attempts[i].message != []
    ensures i <= k < n && SentFor(attempts, k, attempts[i].key)
    ensures forall j :: k < j < n ==> !SentFor(attempts, j, attempts[i].key)
  {
    k := n - 1;
    while !SentFor(attempts, k, attempts[i].key)
      invariant i <= k < n
      invariant forall j :: k < j < n ==> !SentFor(attempts, j, attempts[i].key)
      decreases k
    {
      k := k - 1;
    }
  }

  /** Of the first `n` attempts, the `k`-th is the last that sent a notice for the key and a named message. */
  predicate LastSentFor(attempts: seq<Attempt>, n: nat, key: Key, k: nat)
    requires n <= |attempts|
  {
    k < n && SentFor(attempts, k, key) && forall j :: k < j < n ==> !SentFor(attempts, j, key)
  }

  lemma {:induction false} RememberedWasSent(attempts: seq<Attempt>, n: nat, key: Key) returns (k: nat)
    requires n <= |attempts| && key in AfterAttempts(attempts[..n])
    ensures LastSentFor(attempts, n, key, k)
    decreases n
  {
    assert n > 0;
    assert attempts[..n][..n - 1] == attempts[..n - 1];
    if SentFor(attempts, n - 1, key) {
      k := n - 1;
    } else {
      k := RememberedWasSent(attempts, n - 1, key);
    }
  }

  /** A notice is sent exactly when sending works and the last one sent of its kind to its session was not for
      the same named message. */
  lemma SentIff(attempts: seq<Attempt>, i: nat)
    requires i < |attempts|
    ensures Sent(attempts, i) <==>
              && attempts[i].works
              && (attempts[i].message == [] ||
                  forall k: nat :: LastSentFor(attempts, i, attempts[i].key, k) ==>
                    attempts[k].message != attempts[i].message)
  {
    var a := attempts[i];
    forall k: nat | LastSentFor(attempts, i, a.key, k)
      ensures a.key in AfterAttempts(attempts[..i]) && AfterAttempts(attempts[..i])[a.key] == attempts[k].message
    {
      RememberedIsLastSent(attempts, i, a.key, k);
    }
    if a.key in AfterAttempts(attempts[..i]) {
      var k := RememberedWasSent(attempts, i, a.key);
    }
  }

  class Notices {
    var given: map<Key, string>
    ghost var attempts: seq<Attempt>

    ghost predicate Valid()
      reads this
    {
      given == AfterAttempts(attempts)
    }

    constructor ()
      ensures Valid() && attempts == []
    {
      given, attempts := map[], [];
    }

    /** `works` says whether the notifier takes the notice; a failed notice may be tried again. */
    method NotifyOnce(key: Key, message: string, works: bool) returns (sent: bool)
      requires Valid()
      modifies this
      ensures Valid() && attempts == old(attempts) + [Attempt(key, message, works)]
      ensures sent <==> Sent(attempts, |old(attempts)|)
    {
      var a := Attempt(key, message, works);
      attempts := attempts + [a];
      assert attempts[..|attempts| - 1] == old(attempts);
      if message != [] && key in given && given[key] == message {
        return false;
      }
      if works && message != [] {
        given := given[key := message];
      }
      sent := works;
    }
  }
}
