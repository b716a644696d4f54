/** The mutation page (`add-donation`): the form, the in-memory collection,
    add and delete with their write-back to storage, the mount-time load, and
    the list's total and newest-first sort. */
module AddDonation {
  import opened Options
  import opened Amount
  import opened Donations

  /** The message textarea accepts at most this many characters. */
  const MaxMessage: nat := 200

  /** The mount-time load: the page starts from an empty collection and only a
      stored collection replaces it; a missing or unreadable entry (the error
      is only logged) leaves it empty. */
  function MountLoad(slot: Slot): (r: seq<Donation>)
    ensures slot.Stored? ==> r == slot.records
    ensures !slot.Stored? ==> r == []
  {
    match slot
    case Stored(records) => records
    case _ => []
  }

  /** The record `handleAddDonation` builds from the form. */
  function NewRecord(id: string, amountText: string, donor: string, message: string, now: int): (d: Donation)
    requires HasDigit(amountText)
    ensures ParsedAmount(amountText) == Some(d.amount)
    ensures d.id == id && d.donor == donor && d.message == message && d.timestamp == now
  {
    Donation(id, ParsedAmount(amountText).value, donor, message, now)
  }

  /** The record built from a field the user typed `raw` into carries the
      number whose digits were typed. */
  lemma NewRecordFromTyped(id: string, raw: string, donor: string, message: string, now: int)
    ensures NewRecord(id, FormatAmountInput(raw), donor, message, now).amount == TypedValue(raw)
  {
    AmountFieldRoundTrip(raw);
  }

  /** Newest first: timestamps never increase along the sequence. */
  predicate NewestFirst(s: seq<Donation>) {
    forall i, j :: 0 <= i < j < |s| ==> s[i].timestamp >= s[j].timestamp
  }

  /** `a.sort((x, y) => y.timestamp - x.timestamp)`, in place. */
  method SortNewestFirst(a: array<Donation>)
    modifies a
    ensures NewestFirst(a[..])
    ensures multiset(a[..]) == multiset(old(a[..]))
  {
    var i := 0;
    while i < a.Length
      invariant 0 <= i <= a.Length
      invariant NewestFirst(a[..i])
      invariant multiset(a[..]) == multiset(old(a[..]))
    {
      InsertNext(a, i);
      i := i + 1;
    }
    assert a[..a.Length] == a[..];
  }

  /** One insertion step: `a[i]` moves left past every older record. */
  method InsertNext(a: array<Donation>, i: nat)
    requires i < a.Length && NewestFirst(a[..i])
    modifies a
    ensures NewestFirst(a[..i + 1])
    ensures multiset(a[..]) == multiset(old(a[..]))
  {
    var j := i;
    while j > 0 && a[j - 1].timestamp < a[j].timestamp
      invariant 0 <= j <= i
      invariant forall p, q :: 0 <= p < q <= i && p != j && q != j ==> a[p].timestamp >= a[q].timestamp
      invariant forall q :: j < q <= i ==> a[j].timestamp >= a[q].timestamp
      invariant multiset(a[..]) == multiset(old(a[..]))
    {
      Swap(a, j - 1, j);
      j := j - 1;
    }
  }

  method Swap(a: array<Donation>, i: nat, j: nat)
    requires i < j < a.Length
    modifies a
    ensures a[..] == old(a[..])[i := old(a[j])][j := old(a[i])]
    ensures multiset(a[..]) == multiset(old(a[..]))
  {
    a[i], a[j] := a[j], a[i];
  }

  class AddDonationPage {
    const storage: LocalStorage
    /** The `donations` state. An array, because the list's sort reorders it
        in place; add and delete replace it with a fresh one. */
    var donations: array<Donation>
    /** The `newDonation` form state. */
    var amount: string
    var donor: string
    var message: string

    /** The amount field only ever holds a formatted number or nothing, and
        the message field respects the textarea's limit. */
    ghost predicate Valid()
      reads this
    {
      (amount == "" || HasDigit(amount)) && |message| <= MaxMessage
    }

    function Records(): seq<Donation>
      reads this, donations
    {
      donations[..]
    }

    /** Mounting the page: empty form, collection from the mount-time load. */
    constructor (storage: LocalStorage)
      ensures Valid() && this.storage == storage && fresh(donations)
      ensures Records() == MountLoad(storage.slot)
      ensures amount == "" && donor == "" && message == ""
    {
      this.storage := storage;
      var loaded := MountLoad(storage.slot);
      var a := new Donation[|loaded|](i requires 0 <= i < |loaded| => loaded[i]);
      assert a[..] == loaded;
      donations := a;
      amount, donor, message := "", "", "";
    }

    /** `handleAmountChange`: the field is re-rendered as a grouped number. */
    method OnAmountChange(raw: string)
      requires Valid()
      modifies this`amount
      ensures Valid()
      ensures amount == FormatAmountInput(raw)
    {
      amount := FormatAmountInput(raw);
    }

    method OnDonorChange(text: string)
      requires Valid()
      modifies this`donor
      ensures Valid() && donor == text
    {
      donor := text;
    }

    /** The textarea refuses input beyond its limit. */
    method OnMessageChange(text: string)
      requires Valid() && |text| <= MaxMessage
      modifies this`message
      ensures Valid() && message == text
    {
      message := text;
    }

    /** `handleAddDonation`: `dispatched` is false when the "fill in amount and
        donor" alert is shown (nothing changes), and true when the record was
        appended, the collection written back, the change event dispatched
        and the form cleared. */
    method AddDonation(id: string, now: int) returns (dispatched: bool)
      requires Valid()
      modifies this, storage
      ensures Valid()
      ensures dispatched <==> old(amount) != "" && old(donor) != ""
      ensures !dispatched ==>
        && donations == old(donations) && storage.slot == old(storage.slot)
        && amount == old(amount) && donor == old(donor) && message == old(message)
      ensures dispatched ==>
        && fresh(donations)
        && Records() == old(Records()) + [NewRecord(id, old(amount), old(donor), old(message), now)]
        && storage.slot == Stored(Records())
        && amount == "" && donor == "" && message == ""
    {
      if amount == "" || donor == "" {
        return false;
      }
      var record := NewRecord(id, amount, donor, message, now);
      var updated := donations[..] + [record];
      donations := new Donation[|updated|](i requires 0 <= i < |updated| => updated[i]);
      assert donations[..] == updated;
      storage.SetDonations(updated);
      amount, donor, message := "", "", "";
      return true;
    }

    /** `deleteDonation`: on confirmation the records with a different
        identifier are kept and written back, and the change event is
        dispatched; a declined confirmation changes nothing. */
    method DeleteDonation(id: string, confirmed: bool) returns (dispatched: bool)
      requires Valid()
      modifies this, storage
      ensures Valid()
      ensures dispatched == confirmed
      ensures amount == old(amount) && donor == old(donor) && message == old(message)
      ensures !confirmed ==> donations == old(donations) && storage.slot == old(storage.slot)
      ensures confirmed ==>
        && fresh(donations)
        && Records() == Without(old(Records()), id)
        && storage.slot == Stored(Records())
    {
      if !confirmed {
        return false;
      }
      var updated := Without(donations[..], id);
      donations := new Donation[|updated|](i requires 0 <= i < |updated| => updated[i]);
      assert donations[..] == updated;
      storage.SetDonations(updated);
      return true;
    }

    /** Rendering the list: the total of all amounts, then the in-place
        newest-first sort of the state array itself. */
    method RenderList() returns (total: nat)
      modifies donations
      ensures total == Total(old(Records()))
      ensures NewestFirst(Records()) && multiset(Records()) == multiset(old(Records()))
    {
      total := 0;
      if donations.Length > 0 {
        total := Total(donations[..]);
        SortNewestFirst(donations);
      }
    }
  }

  /** The add scenario: from an empty store, typing "50.000" and "Alice" and
      submitting stores exactly one record, of amount 50000. */
  method AddScenario(id: string, now: int) returns (stored: Slot)
    ensures stored == Stored([Donation(id, 50000, "Alice", "", now)])
  {
    var storage := new LocalStorage(Absent);
    var page := new AddDonationPage(storage);
    page.OnAmountChange("50.000");
    page.OnDonorChange("Alice");
    FiftyThousand();
    var dispatched := page.AddDonation(id, now);
    stored := storage.slot;
  }

  /** The delete scenario: of two records, deleting the first by its
      identifier leaves exactly the second, in memory and in storage. */
  method DeleteScenario(first: Donation, second: Donation) returns (kept: seq<Donation>, stored: Slot)
    requires first.id != second.id
    ensures kept == [second] && stored == Stored([second])
  {
    var storage := new LocalStorage(Stored([first, second]));
    var page := new AddDonationPage(storage);
    var dispatched := page.DeleteDonation(first.id, true);
    assert [first, second][..1] == [first];
    kept := page.Records();
    stored := storage.slot;
  }
}
