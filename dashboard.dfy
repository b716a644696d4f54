/** The display page (`DonationCounter`): a cached copy of the collection,
    re-read from storage on each of three signals, and the three aggregates
    it hands to its animated counters. */
module Dashboard {
  import opened Options
  import opened Amount
  import opened Donations
  import opened Counter
  import AddDonation

  /** The monthly goal, in rupiah. */
  const MonthlyGoal: nat := 50000000

  /** `reloadDonations`: a missing entry empties the cache, a stored
      collection replaces it, and an unreadable one leaves it as it was (the
      error is only logged). */
  function Reloaded(cache: seq<Donation>, slot: Slot): (r: seq<Donation>)
    ensures slot.Absent? ==> r == []
    ensures slot.Stored? ==> r == slot.records
    ensures slot.Corrupt? ==> r == cache
  {
    match slot
    case Absent => []
    case Corrupt => cache
    case Stored(records) => records
  }

  /** Reloading twice without a write in between is reloading once. */
  lemma ReloadIdempotent(cache: seq<Donation>, slot: Slot)
    ensures Reloaded(Reloaded(cache, slot), slot) == Reloaded(cache, slot)
  {
  }

  /** Whatever the cache held, a reload after a write shows exactly what was
      written. */
  lemma ReloadAfterWrite(cache: seq<Donation>, records: seq<Donation>)
    ensures Reloaded(cache, Stored(records)) == records
  {
  }

  /** The display page's reload agrees with the mutation page's mount load,
      except on an unreadable entry, which the mount load treats as empty and
      the reload ignores. */
  lemma ReloadVersusMountLoad(cache: seq<Donation>, slot: Slot)
    ensures !slot.Corrupt? ==> Reloaded(cache, slot) == AddDonation.MountLoad(slot)
    ensures slot.Corrupt? ==> Reloaded(cache, slot) == cache && AddDonation.MountLoad(slot) == []
  {
  }

  /** The storage handler reloads only for the `donations` key (`key` is
      `None` when the whole storage was cleared). */
  predicate StorageEventReloads(key: Option<string>) {
    key == Some(StorageKey)
  }

  /** The visibility handler reloads only when the page is visible. */
  predicate VisibilityReloads(hidden: bool) {
    !hidden
  }

  class DonationCounter {
    const storage: LocalStorage
    /** The `donations` state: the cached copy of the collection. */
    var donations: seq<Donation>
    const totalCounter: AnimatedCounter
    const donorCounter: AnimatedCounter
    const goalCounter: AnimatedCounter

    ghost predicate Valid()
      reads this, totalCounter, donorCounter, goalCounter
    {
      && totalCounter != donorCounter && donorCounter != goalCounter && totalCounter != goalCounter
      && totalCounter.Valid() && donorCounter.Valid() && goalCounter.Valid()
    }

    /** `totalDonations`. */
    function TotalDonations(): (n: nat)
      reads this
      ensures n == Total(donations)
    {
      Total(donations)
    }

    /** `totalDonors`. */
    function TotalDonors(): (n: nat)
      reads this
      ensures n == |donations|
    {
      |donations|
    }

    /** Mounting the page: an empty cache, reloaded once, and three counters
        that start at zero. */
    constructor (storage: LocalStorage)
      ensures Valid() && this.storage == storage
      ensures donations == Reloaded([], storage.slot)
      ensures fresh(totalCounter) && fresh(donorCounter) && fresh(goalCounter)
      ensures totalCounter.value == 0 && donorCounter.value == 0 && goalCounter.value == MonthlyGoal
      ensures totalCounter.displayValue == 0 && !totalCounter.hasAnimated && totalCounter.runs == []
      ensures donorCounter.displayValue == 0 && !donorCounter.hasAnimated && donorCounter.runs == []
      ensures goalCounter.displayValue == 0 && !goalCounter.hasAnimated && goalCounter.runs == []
    {
      this.storage := storage;
      donations := Reloaded([], storage.slot);
      totalCounter := new AnimatedCounter(0);
      donorCounter := new AnimatedCounter(0);
      goalCounter := new AnimatedCounter(MonthlyGoal);
    }

    method ReloadDonations()
      modifies this
      ensures donations == Reloaded(old(donations), storage.slot)
    {
      donations := Reloaded(donations, storage.slot);
    }

    /** `handleStorageChange`: a write in another tab. */
    method OnStorage(key: Option<string>)
      modifies this
      ensures StorageEventReloads(key) ==> donations == Reloaded(old(donations), storage.slot)
      ensures !StorageEventReloads(key) ==> donations == old(donations)
    {
      if key == Some(StorageKey) {
        ReloadDonations();
      }
    }

    /** `handleDonationsUpdate`: the custom event; always reloads. The
        mutation page dispatches it in its own document, where this page is
        not mounted (the two are separate routes), so in this program it
        only fires if something else in the document dispatches it. */
    method OnDonationsUpdated()
      modifies this
      ensures donations == Reloaded(old(donations), storage.slot)
    {
      ReloadDonations();
    }

    /** `handleVisibilityChange`. */
    method OnVisibilityChange(hidden: bool)
      modifies this
      ensures VisibilityReloads(hidden) ==> donations == Reloaded(old(donations), storage.slot)
      ensures !VisibilityReloads(hidden) ==> donations == old(donations)
    {
      if !hidden {
        ReloadDonations();
      }
    }

    /** A render: each counter receives its aggregate as its `value` prop; a
        counter whose value changed is reset to 0 and not-animated, one whose
        value is the same keeps its display, and no interval is cancelled. */
    method Render()
      requires Valid()
      modifies totalCounter, donorCounter, goalCounter
      ensures Valid()
      ensures totalCounter.value == TotalDonations() && totalCounter.runs == old(totalCounter.runs)
      ensures TotalDonations() != old(totalCounter.value) ==> totalCounter.displayValue == 0 && !totalCounter.hasAnimated
      ensures TotalDonations() == old(totalCounter.value) ==>
        totalCounter.displayValue == old(totalCounter.displayValue) && totalCounter.hasAnimated == old(totalCounter.hasAnimated)
      ensures donorCounter.value == TotalDonors() && donorCounter.runs == old(donorCounter.runs)
      ensures TotalDonors() != old(donorCounter.value) ==> donorCounter.displayValue == 0 && !donorCounter.hasAnimated
      ensures TotalDonors() == old(donorCounter.value) ==>
        donorCounter.displayValue == old(donorCounter.displayValue) && donorCounter.hasAnimated == old(donorCounter.hasAnimated)
      ensures goalCounter.value == MonthlyGoal && goalCounter.runs == old(goalCounter.runs)
      ensures MonthlyGoal != old(goalCounter.value) ==> goalCounter.displayValue == 0 && !goalCounter.hasAnimated
      ensures MonthlyGoal == old(goalCounter.value) ==>
        goalCounter.displayValue == old(goalCounter.displayValue) && goalCounter.hasAnimated == old(goalCounter.hasAnimated)
    {
      totalCounter.OnValueChange(TotalDonations());
      donorCounter.OnValueChange(TotalDonors());
      goalCounter.OnValueChange(MonthlyGoal);
    }
  }

  /** A donation added on the form page in one tab reaches the dashboard
      that is open in another tab through the storage event, and the
      dashboard of the form's own tab when it is mounted again on
      navigating back: both then hold the old collection plus the new
      record, with the total up by its amount and the count up by one. When
      the donor field is empty nothing is added and both keep the old
      collection. */
  method SyncScenario(records: seq<Donation>, raw: string, donorName: string, id: string, now: int)
    returns (sameTab: seq<Donation>, otherTab: seq<Donation>, total: nat, donors: nat)
    ensures donorName != "" ==>
      && sameTab == otherTab == records + [AddDonation.NewRecord(id, FormatAmountInput(raw), donorName, "", now)]
      && total == Total(records) + TypedValue(raw)
      && donors == |records| + 1
    ensures donorName == "" ==> sameTab == otherTab == records && total == Total(records) && donors == |records|
  {
    var storage := new LocalStorage(Stored(records));
    var there := new DonationCounter(storage);
    var form := new AddDonation.AddDonationPage(storage);
    form.OnAmountChange(raw);
    form.OnDonorChange(donorName);
    var dispatched := form.AddDonation(id, now);
    there.OnStorage(Some(StorageKey));
    var here := new DonationCounter(storage);
    sameTab, otherTab := here.donations, there.donations;
    total, donors := here.TotalDonations(), here.TotalDonors();
    if donorName != "" {
      AddDonation.NewRecordFromTyped(id, raw, donorName, "", now);
      TotalSnoc(records, AddDonation.NewRecord(id, FormatAmountInput(raw), donorName, "", now));
    }
  }
}
