/** The donation record, the one storage slot both pages share, and the
    collection functions both pages use: the summed total and the removal by
    identifier. */
module Donations {

  /** One record. `id` is the decimal text of the clock at creation and
      `timestamp` the creation time in milliseconds; both are chosen by the
      caller. The message is always present on records the form creates
      (possibly empty). */
  datatype Donation = Donation(id: string, amount: nat, donor: string, message: string, timestamp: int)

  /** The content of the `donations` entry of local storage: missing (or the
      empty string), a blob that does not parse to an array, or a collection. */
  datatype Slot = Absent | Corrupt | Stored(records: seq<Donation>)

  const StorageKey: string := "donations"

  /** `reduce((sum, d) => sum + d.amount, 0)`: a left fold over the amounts. */
  function Total(s: seq<Donation>): (r: nat)
    ensures forall i :: 0 <= i < |s| ==> s[i].amount <= r
    ensures r == 0 <==> forall i :: 0 <= i < |s| ==> s[i].amount == 0
  {
    if s == [] then 0 else Total(s[..|s| - 1]) + s[|s| - 1].amount
  }

  /** `filter(d => d.id !== id)`. */
  function Without(s: seq<Donation>, id: string): (r: seq<Donation>)
    ensures |r| <= |s|
    ensures forall d :: d in r <==> d in s && d.id != id
  {
    if s == [] then []
    else
      var last := s[|s| - 1];
      var rest := Without(s[..|s| - 1], id);
      assert forall d :: d in s <==> d in s[..|s| - 1] || d == last by {
        assert s == s[..|s| - 1] + [last];
      }
      if last.id != id then rest + [last] else rest
  }

  predicate HasId(s: seq<Donation>, id: string) {
    exists i :: 0 <= i < |s| && s[i].id == id
  }

  /** The total of two parts is the sum of their totals. */
  lemma {:induction false} TotalAppend(a: seq<Donation>, b: seq<Donation>)
    ensures Total(a + b) == Total(a) + Total(b)
    decreases |b|
  {
    if b == [] {
      assert a + b == a;
    } else {
      assert (a + b)[..|a + b| - 1] == a + b[..|b| - 1];
      TotalAppend(a, b[..|b| - 1]);
    }
  }

  /** Appending one record adds exactly its amount. */
  lemma TotalSnoc(s: seq<Donation>, d: Donation)
    ensures Total(s + [d]) == Total(s) + d.amount
  {
    assert (s + [d])[..|s|] == s;
  }

  /** The total does not depend on the order of the records. */
  lemma {:induction false} TotalPermutation(a: seq<Donation>, b: seq<Donation>)
    requires multiset(a) == multiset(b)
    ensures Total(a) == Total(b)
    decreases |a|
  {
    if a != [] {
      var n := |a| - 1;
      var x := a[n];
      assert a == a[..n] + [x];
      assert x in multiset(b);
      var k :| 0 <= k < |b| && b[k] == x;
      var b' := b[..k] + b[k + 1..];
      assert b == b[..k] + [x] + b[k + 1..];
      calc {
        multiset(b);
        multiset(b[..k] + [x] + b[k + 1..]);
        multiset(b[..k]) + multiset{x} + multiset(b[k + 1..]);
        multiset(b') + multiset{x};
      }
      assert multiset(a) == multiset(a[..n]) + multiset{x};
      assert multiset(a[..n]) == multiset(a) - multiset{x};
      assert multiset(b') == multiset(b) - multiset{x};
      TotalPermutation(a[..n], b');
      TotalAppend(b[..k] + [x], b[k + 1..]);
      TotalAppend(b[..k], b[k + 1..]);
      TotalSnoc(b[..k], x);
    }
  }

  /** Removal keeps every other record in its original order: it distributes
      over concatenation. */
  lemma {:induction false} WithoutAppend(a: seq<Donation>, b: seq<Donation>, id: string)
    ensures Without(a + b, id) == Without(a, id) + Without(b, id)
    decreases |b|
  {
    if b == [] {
      assert a + b == a;
    } else {
      assert (a + b)[..|a + b| - 1] == a + b[..|b| - 1];
      WithoutAppend(a, b[..|b| - 1], id);
    }
  }

  /** Removing an identifier nobody carries changes nothing. */
  lemma {:induction false} WithoutAbsent(s: seq<Donation>, id: string)
    requires !HasId(s, id)
    ensures Without(s, id) == s
  {
    if s != [] {
      assert s[|s| - 1].id != id;
      WithoutAbsent(s[..|s| - 1], id);
    }
  }

  /** Afterwards no record carries the identifier, so removing it again
      changes nothing. */
  lemma WithoutIdempotent(s: seq<Donation>, id: string)
    ensures !HasId(Without(s, id), id)
    ensures Without(Without(s, id), id) == Without(s, id)
  {
    WithoutAbsent(Without(s, id), id);
  }

  /** Removal never raises the total, and leaves it as it was when the
      identifier is absent. */
  lemma {:induction false} TotalWithout(s: seq<Donation>, id: string)
    ensures Total(Without(s, id)) <= Total(s)
    ensures !HasId(s, id) ==> Total(Without(s, id)) == Total(s)
    decreases |s|
  {
    if !HasId(s, id) {
      WithoutAbsent(s, id);
    }
    if s != [] {
      var init := s[..|s| - 1];
      TotalWithout(init, id);
      if s[|s| - 1].id != id {
        TotalSnoc(Without(init, id), s[|s| - 1]);
      }
    }
  }

  /** The browser's local storage, reduced to the one entry the program uses. */
  class LocalStorage {
    var slot: Slot

    constructor (initial: Slot)
      ensures slot == initial
    {
      slot := initial;
    }

    /** `localStorage.setItem('donations', JSON.stringify(records))`: the whole
        entry is replaced. */
    method SetDonations(records: seq<Donation>)
      modifies this
      ensures slot == Stored(records)
    {
      slot := Stored(records);
    }
  }
}
