# Donation tally: a Dafny model

The repository is a browser-only donation tally written as two Next.js pages.
The mutation page (`src/app/add-donation/page.tsx`) keeps a form and an
in-memory collection of donation records. It appends and deletes records,
writes the whole collection to local storage under the key `donations`, and
dispatches a `donationsUpdated` event. The display page (`src/app/page.tsx`)
keeps a cached copy of the collection. It reloads that copy from storage on a
storage event for that key, on the custom event, and when the page becomes
visible. It shows three animated counters: the sum of amounts, the number of
records, and a fixed monthly goal.

The model has six modules:

- `Options` (options.dfy): the `Option` datatype.
- `Amount` (amount.dfy): the `\D` stripping and `parseInt` on the amount
  field, and the id-ID grouping (`50000` shown as `50.000`) that
  `handleAmountChange` writes back into the field.
- `Donations` (donations.dfy): the `Donation` record, the storage entry as a
  `Slot` (`Absent | Corrupt | Stored(records)`), the left-fold `Total`, the
  `Without` filter, their lemmas, and the `LocalStorage` class that holds the
  slot.
- `AddDonation` (add_donation.dfy): the `AddDonationPage` class and the
  in-place newest-first sort. The page holds the form fields and the
  collection. The collection is an `array`, because the list's `.sort`
  reorders the state array itself. Add and delete replace it with a fresh
  array.
- `Counter` (counter.dfy): the `AnimatedCounter` class and the `Animate`
  loop.
- `Dashboard` (dashboard.dfy): the `DonationCounter` display class, its
  reload, its three signal handlers and its aggregates.

Both pages share one `LocalStorage` object. Every browser surface becomes a
method call or a parameter:

- `Date.now()` becomes the `id` and `now` parameters.
- `confirm` becomes the `confirmed` parameter.
- The "fill in amount and donor" alert is the `false` result of
  `AddDonation`; that result also says whether the change event was
  dispatched.
- The storage, custom and visibility events become `OnStorage`,
  `OnDonationsUpdated` and `OnVisibilityChange`.
- The intersection observer becomes `OnIntersect`, and each interval tick
  becomes `Tick`.

The interval's floating accumulator is kept exactly. After k ticks it equals
k·value/60, so the shown value is (k·value)/60, and "reached" means
k·value ≥ 60·value.

Behaviour of the code a reader might not expect:

- An amount of 0 is not rejected. Only an empty amount text or an empty donor
  text is rejected, and the donor is not trimmed.
- On an unreadable entry, the display page keeps its cache; it does not treat
  the entry as empty. The mutation page's mount load does end up empty, because
  it only ever replaces its initial empty collection.
- A counter with value 0 does get armed. On its first tick it clamps to 0
  and stops; it does not stay idle.
- A change of `value` does not cancel a running interval. That interval goes
  on with the target it captured (`runs` in `AnimatedCounter`).
- Within one observer batch, the callback sees the `hasAnimated` of its own
  render. So when that value was false, every intersecting entry of the batch
  starts an interval.

## Model

| member | source | states |
|---|---|---|
| Amount.StripNonDigits | src/app/add-donation/page.tsx:56 | the stripped text is all digits, no longer than the input, and empty exactly when the input has no digit |
| Amount.StripIdempotent | src/app/add-donation/page.tsx:89 | stripping twice equals stripping once |
| Amount.StripAppend | src/app/add-donation/page.tsx:56 | stripping keeps the digits of each part in order (homomorphism over concatenation) |
| Amount.ParsedAmount | src/app/add-donation/page.tsx:56 | the submission parse yields a number exactly when the text holds a digit |
| Amount.ParseDigits | src/app/add-donation/page.tsx:56 | parseInt on a digits-only string is NaN (None) exactly on the empty string |
| Amount.Grouped | src/app/add-donation/page.tsx:90 | the id-ID rendering of a number always contains a digit |
| Amount.TypedValue | src/app/add-donation/page.tsx:89-90 | the fallback of `parseInt` to 0: the parsed number when the input holds a digit, 0 when it holds none |
| Amount.FormatAmountInput | src/app/add-donation/page.tsx:88-91 | what the field holds after a keystroke always contains a digit |
| Amount.GroupedDigits | src/app/add-donation/page.tsx:56 | the digits of the grouped rendering of n denote n |
| Amount.FormatThenParse | src/app/add-donation/page.tsx:90 | parsing the id-ID rendering of n gives back n |
| Amount.AmountFieldRoundTrip | src/app/add-donation/page.tsx:88-91 | the formatted field parses on submission to the number whose digits were typed, 0 when none were |
| Amount.FormatIdempotent | src/app/add-donation/page.tsx:88-91 | re-formatting the field's own content changes nothing |
| Amount.NoDigitsFormatsZero | src/app/add-donation/page.tsx:90 | a digit-free input is shown as "0" |
| Amount.FiftyThousand | src/app/add-donation/page.tsx:56 | "50.000" submits as 50000 and 50000 is shown as "50.000" |
| Donations.Total | src/app/add-donation/page.tsx:206 | the left-fold sum of amounts bounds every amount, and is 0 exactly when every amount is 0 |
| Donations.Without | src/app/add-donation/page.tsx:78 | a record is kept exactly when it was present and its id differs; the result is no longer than the input |
| Donations.WithoutAppend | src/app/add-donation/page.tsx:78 | removal distributes over concatenation, so the kept records stay in their original order |
| Donations.WithoutAbsent | src/app/add-donation/page.tsx:78 | deleting an id no record carries leaves the collection unchanged |
| Donations.WithoutIdempotent | src/app/add-donation/page.tsx:78 | after removal no record carries the id, and removing again changes nothing |
| Donations.TotalWithout | src/app/add-donation/page.tsx:78 | removal never raises the total, and keeps it when the id is absent |
| Donations.TotalAppend | src/app/add-donation/page.tsx:206 | the total of a concatenation is the sum of the totals |
| Donations.TotalSnoc | src/app/add-donation/page.tsx:63 | appending a record adds exactly its amount to the total |
| Donations.TotalPermutation | src/app/add-donation/page.tsx:206-212 | the total does not depend on the order of the records, so the sort does not change it |
| Donations.LocalStorage.SetDonations | src/app/add-donation/page.tsx:65 | a write replaces the whole entry with the given collection |
| AddDonation.MountLoad | src/app/add-donation/page.tsx:24-37 | a stored collection is loaded as is; an absent or unreadable entry gives the empty collection |
| AddDonation.NewRecord | src/app/add-donation/page.tsx:54-60 | the new record's amount is the parse of the stripped amount text; id, donor, message and timestamp are the given values |
| AddDonation.NewRecordFromTyped | src/app/add-donation/page.tsx:56 | a record built from the formatted field carries the number the user typed |
| AddDonation.SortNewestFirst | src/app/add-donation/page.tsx:211-212 | after the in-place sort the array is ordered by timestamp, newest first, and is a permutation of what it held |
| AddDonation.InsertNext | src/app/add-donation/page.tsx:212 | one insertion step extends the sorted prefix by one place and keeps the array a permutation |
| AddDonation.AddDonationPage.constructor | src/app/add-donation/page.tsx:16-37 | the form starts empty and the collection is the mount-time load of the store |
| AddDonation.AddDonationPage.OnAmountChange | src/app/add-donation/page.tsx:88-92 | the amount field becomes the formatted number and the form invariant holds |
| AddDonation.AddDonationPage.OnDonorChange | src/app/add-donation/page.tsx:146 | the donor field becomes the typed text |
| AddDonation.AddDonationPage.OnMessageChange | src/app/add-donation/page.tsx:160-163 | the message field becomes the typed text, at most 200 characters |
| AddDonation.AddDonationPage.AddDonation | src/app/add-donation/page.tsx:46-73 | if amount or donor text is empty, nothing changes and nothing is dispatched; otherwise the collection becomes the old one plus the new record at the end, storage holds exactly that collection, the event is dispatched and the form is cleared |
| AddDonation.AddDonationPage.DeleteDonation | src/app/add-donation/page.tsx:76-85 | a declined confirmation changes and writes nothing; a confirmed one keeps the records with a different id, writes exactly them to storage and dispatches the event; the form is untouched |
| AddDonation.AddDonationPage.RenderList | src/app/add-donation/page.tsx:206-212 | the shown total is the sum of all amounts, and the state array ends up sorted newest first as a permutation of itself |
| AddDonation.AddScenario | src/app/add-donation/page.tsx:46-73 | from an empty store, entering "50.000" and "Alice" and submitting stores exactly one record of amount 50000 |
| AddDonation.DeleteScenario | src/app/add-donation/page.tsx:76-85 | of two stored records, deleting the first by id leaves exactly the second in memory and in storage |
| Counter.Reached | src/app/page.tsx:37-43 | `current >= value` after k ticks of 60 (`Steps`) holds exactly when the value is 0 or 60 ticks have run |
| Counter.Shown | src/app/page.tsx:38-47 | `Math.floor(current)` after k ticks, never above the value within the 60 steps |
| Counter.ShownBelowTarget | src/app/page.tsx:42-48 | before the accumulator reaches the target, the shown floor is strictly below the target |
| Counter.ShownMonotone | src/app/page.tsx:41-48 | the shown floor is nondecreasing in the tick number |
| Counter.ReachedExactly | src/app/page.tsx:36-45 | from tick 1 on, the accumulator has reached the target exactly when 60 ticks have run, or 1 tick for target 0 |
| Counter.FramesShape | src/app/page.tsx:41-48 | the values of one run end with exactly the value, stay below it before that, and never decrease |
| Counter.Animate | src/app/page.tsx:35-50 | the loop shows exactly the values of one run (`Frames`): one run shows floor(k·value/60) below the value at each tick before the last, ends after the run length showing exactly the value, and never decreases |
| Counter.AnimatedCounter.constructor | src/app/page.tsx:16-17 | a counter starts at 0, not animated, with no interval |
| Counter.AnimatedCounter.OnValueChange | src/app/page.tsx:72-75 | a different value resets the display to 0 and not-animated; the same value changes nothing; running intervals are kept |
| Counter.AnimatedCounter.OnIntersect | src/app/page.tsx:52-59 | an interval starts only for an intersecting entry while not yet animated, and hasAnimated then becomes true; otherwise nothing starts |
| Counter.AnimatedCounter.Tick | src/app/page.tsx:41-49 | an interval shows its floor while below the target, and on its last tick shows exactly the target and stops; the shown value never exceeds the target |
| Counter.CountUp | src/app/page.tsx:41-58 | a counter that comes into view once shows, tick by tick, exactly the values of the `Animate` loop (`Frames`), and ends showing its value after the run length |
| Dashboard.Reloaded | src/app/page.tsx:99-115 | an absent entry empties the cache, a stored collection replaces it, an unreadable one leaves it unchanged |
| Dashboard.ReloadIdempotent | src/app/page.tsx:99-115 | two reloads with no write in between leave the same cache as one |
| Dashboard.ReloadAfterWrite | src/app/page.tsx:99-107 | after a write, a reload shows exactly the written collection whatever the cache held |
| Dashboard.ReloadVersusMountLoad | src/app/page.tsx:99-115 | the reload agrees with the mutation page's mount load except on an unreadable entry |
| Dashboard.DonationCounter.constructor | src/app/page.tsx:91-96 | the page mounts with the reload of an empty cache and three fresh counters whose values are 0, 0 and the goal, each showing 0, not animated, with no interval |
| Dashboard.DonationCounter.TotalDonations | src/app/page.tsx:152 | the displayed total is the sum of the cached amounts |
| Dashboard.DonationCounter.TotalDonors | src/app/page.tsx:153 | the displayed donor count is the number of cached records |
| Dashboard.DonationCounter.ReloadDonations | src/app/page.tsx:99-115 | the cache becomes the reload of the old cache against the store |
| Dashboard.DonationCounter.OnStorage | src/app/page.tsx:119-123 | reloads exactly when the key is "donations"; any other key leaves the cache unchanged |
| Dashboard.DonationCounter.OnDonationsUpdated | src/app/page.tsx:131-133 | the custom event always reloads |
| Dashboard.DonationCounter.OnVisibilityChange | src/app/page.tsx:141-145 | reloads exactly when the document is not hidden |
| Dashboard.DonationCounter.Render | src/app/page.tsx:152-162 | the counters receive the sum of amounts, the record count and the goal 50,000,000; a counter whose value changed is reset to 0 and not animated, one whose value is unchanged keeps its display, and no interval is cancelled |
| Dashboard.SyncScenario | src/app/page.tsx:94-154 | after an add on the form page, the dashboard open in another tab (storage event) and the dashboard mounted again in the same tab both hold the written collection, with the total up by the typed amount and the count up by one; an empty donor changes neither |

## Left out

- Markup, styling, `Link` navigation and `src/app/layout.tsx`: presentation only.
- JSON serialisation and the `Date` round trip: storage is the abstract `Slot`, and timestamps are integers.
- `Intl.NumberFormat` currency rendering and the date and time rendering. Only the id-ID grouping of the amount field is modelled.
- Floating point: amounts, sums and the interval's accumulator are exact integers. JavaScript loses precision above 2^53, and its accumulated `value / 60` can round differently.
- Timer lifecycle and wall-clock timing: intervals are ticked explicitly. Observer disconnection is not modelled, so the environment decides when `OnIntersect` is called.
- The uniqueness of the `Date.now()` identifiers: the identifier is a parameter, and the code does not guarantee uniqueness.
- Records loaded from storage that lack `message` or hold non-numeric amounts: the model's records always have a message string and a natural amount.
- `localStorage.setItem` and `getItem` throwing (a full quota, or storage blocked): `LocalStorage.SetDonations` always succeeds. In the program a failed write on add leaves the new record in memory but not in storage, with no event dispatched and the form not cleared; the model does not capture that state.
- An amount text of more than about 308 digits: `parseInt` then gives `Infinity`, which the id-ID format renders as "∞", a text with no digit, so submitting it records `NaN` (stored as `null`). The model keeps the amount field "empty or holding a digit" and its numbers unbounded, so it excludes this case.
- The custom `donationsUpdated` event reaching a dashboard: the two pages are separate routes, so no dashboard is mounted in the document that dispatches it. `OnDonationsUpdated` models the listener, but no scenario in the model has it hear a write; the same tab's dashboard picks the write up when it is mounted again.
- Cross-tab write races: every write replaces the whole entry, and the last write wins.
- AddDonation.SortNewestFirst: states ordering and permutation but not the stability of the built-in sort on equal timestamps.
