/** The points book: one balance per account and an append-only list of entries. */
module Points {

  /** What an entry pays for. A key is booked at most once. */
  datatype EventKey =
    | Spend(order: nat)
    | Refund(order: nat)
    | Reward(order: nat)
    | RewardRefund(order: nat)
    | Welcome(user: nat)
    | AdminProvision(user: nat)

  datatype Entry = Entry(user: nat, delta: int, after: int, key: EventKey)

  datatype Book = Book(balances: map<nat, int>, entries: seq<Entry>)

  datatype Outcome = Added(book: Book) | NoAccount | Short

  function Keys(entries: seq<Entry>): set<EventKey> {
    set i | 0 <= i < |entries| :: entries[i].key
  }

  /** The balance is checked before the key, so even a repeated event can be refused. */
  function AddPoints(b: Book, user: nat, delta: int, key: EventKey): Outcome {
    if user !in b.balances then NoAccount
    else
      var next := b.balances[user] + delta;
      if next < 0 then Short
      else if key in Keys(b.entries) then Added(b)
      else Added(Book(b.balances[user := next], b.entries + [Entry(user, delta, next, key)]))
  }

  /** The sum of the entries of one user. */
  function Total(entries: seq<Entry>, user: nat): int {
    if entries == [] then 0 else
      var last := entries[|entries| - 1];
      Total(entries[..|entries| - 1], user) + if last.user == user then last.delta else 0
  }

  predicate Concerns(key: EventKey, o: nat) {
    match key
    case Welcome(_) => false
    case AdminProvision(_) => false
    case _ => key.order == o
  }

  /** The sum of the entries booked for one order. */
  function Effect(entries: seq<Entry>, o: nat): int {
    if entries == [] then 0 else
      var last := entries[|entries| - 1];
      Effect(entries[..|entries| - 1], o) + if Concerns(last.key, o) then last.delta else 0
  }

  predicate Distinct(entries: seq<Entry>) {
    forall i, j :: 0 <= i < j < |entries| ==> entries[i].key != entries[j].key
  }

  /** Each entry records the running sum of its user at that point, never below zero. */
  predicate Running(entries: seq<Entry>) {
    forall i :: 0 <= i < |entries| ==> entries[i].after == Total(entries[..i + 1], entries[i].user) >= 0
  }

  predicate Balanced(b: Book) {
    forall user :: user in b.balances ==> b.balances[user] == Total(b.entries, user) >= 0
  }

  predicate Owned(b: Book) {
    forall i :: 0 <= i < |b.entries| ==> b.entries[i].user in b.balances
  }

  predicate Inv(b: Book) {
    Balanced(b) && Owned(b) && Running(b.entries) && Distinct(b.entries)
  }

  lemma TotalAppend(entries: seq<Entry>, e: Entry, user: nat)
    ensures Total(entries + [e], user) == Total(entries, user) + if e.user == user then e.delta else 0
  {
    assert (entries + [e])[..|entries|] == entries;
  }

  lemma EffectAppend(entries: seq<Entry>, e: Entry, o: nat)
    ensures Effect(entries + [e], o) == Effect(entries, o) + if Concerns(e.key, o) then e.delta else 0
  {
    assert (entries + [e])[..|entries|] == entries;
  }

  lemma KeysAppend(entries: seq<Entry>, e: Entry)
    ensures Keys(entries + [e]) == Keys(entries) + {e.key}
  {
    forall k | k in Keys(entries) + {e.key} ensures k in Keys(entries + [e]) {
      if k in Keys(entries) {
        var i :| 0 <= i < |entries| && entries[i].key == k;
        assert (entries + [e])[i].key == k;
      } else {
        assert (entries + [e])[|entries|].key == k;
      }
    }
  }

  lemma RunningAppend(entries: seq<Entry>, e: Entry)
    requires Running(entries) && e.after == Total(entries, e.user) + e.delta >= 0
    ensures Running(entries + [e])
  {
    var all := entries + [e];
    forall i | 0 <= i < |all| ensures all[i].after == Total(all[..i + 1], all[i].user) >= 0 {
      if i < |entries| {
        assert all[..i + 1] == entries[..i + 1];
      } else {
        assert all[..i + 1] == all;
        TotalAppend(entries, e, e.user);
      }
    }
  }

  /** The balance stays the sum of the entries and never drops below zero. */
  lemma AddPointsKeeps(b: Book, user: nat, delta: int, key: EventKey)
    requires Inv(b) && AddPoints(b, user, delta, key).Added?
    ensures Inv(AddPoints(b, user, delta, key).book)
    ensures AddPoints(b, user, delta, key).book.balances.Keys == b.balances.Keys
  {
    var b' := AddPoints(b, user, delta, key).book;
    if key !in Keys(b.entries) {
      var e := b'.entries[|b.entries|];
      RunningAppend(b.entries, e);
      forall i | 0 <= i < |b.entries| ensures b.entries[i].key != key {
        assert b.entries[i].key in Keys(b.entries);
      }
      hide Keys, Total, Running;
      forall u | u in b'.balances ensures b'.balances[u] == Total(b'.entries, u) >= 0 {
        TotalAppend(b.entries, e, u);
      }
    }
  }

  /** An order no entry concerns has no effect. */
  lemma {:induction false} NoEffect(entries: seq<Entry>, o: nat)
    requires forall i :: 0 <= i < |entries| ==> !Concerns(entries[i].key, o)
    ensures Effect(entries, o) == 0
  {
    if entries != [] {
      NoEffect(entries[..|entries| - 1], o);
    }
  }
}
