/**
 The claim store: the `claims` table as a sequence of rows in rowid order, with the
 insert, the last-hour query and the close-by-id update.

 Timestamps are UTC instants in microseconds; the clock reading is a parameter (`now`).
 Whether an insert commits is a parameter too (`WriteOutcome`).
 */
module ClaimStore {
  import opened Base

  datatype ClaimRecord = ClaimRecord(
    id: int,
    text: string,
    translation: string,
    status: string,
    timestamp: int,
    sentiment: string,
    category: string)

  /** The table's rows, in rowid order. */
  type Store = seq<ClaimRecord>

  const NotTranslated: string := "Not translated"

  /** `translation or "Not translated"`: a missing or empty translation is stored as the marker. */
  function StoredTranslation(translation: Option<string>): (r: string)
    ensures r != ""
    ensures IsTruthy(translation) ==> r == translation.value
    ensures !IsTruthy(translation) ==> r == NotTranslated
  {
    if IsTruthy(translation) then translation.value else NotTranslated
  }

  function MaxId(store: Store): (r: int)
    requires |store| > 0
    ensures forall i :: 0 <= i < |store| ==> store[i].id <= r
    ensures exists i :: 0 <= i < |store| && store[i].id == r
  {
    if |store| == 1 then store[0].id
    else
      var m := MaxId(store[1..]);
      assert forall i :: 1 <= i < |store| ==> store[i] == store[1..][i - 1];
      if store[0].id >= m then store[0].id else m
  }

  /** The rowid SQLite gives a new row: one more than the largest in use, 1 in an empty table. */
  function NextRowId(store: Store): (r: int)
    ensures forall i :: 0 <= i < |store| ==> store[i].id < r
    ensures |store| == 0 ==> r == 1
  {
    if |store| == 0 then 1 else MaxId(store) + 1
  }

  predicate UniqueIds(store: Store) {
    forall i, j :: 0 <= i < j < |store| ==> store[i].id != store[j].id
  }

  /** Whether the INSERT and its commit went through, or raised a storage error. */
  datatype WriteOutcome = Committed | StorageError

  /**
   `add_claim_to_db`: stores the six fields as given (the translation normalised) under a
   fresh id stamped `now`, and returns the id; a storage error returns `None` and leaves
   the table as it was.
   */
  function AddClaim(store: Store, text: string, translation: Option<string>, status: string,
                    sentiment: string, category: string, now: int, write: WriteOutcome): (r: (Store, Option<int>))
    ensures write.StorageError? ==> r == (store, None)
    ensures write.Committed? ==>
              && r.1.Some?
              && (forall i :: 0 <= i < |store| ==> store[i].id != r.1.value)
              && |r.0| == |store| + 1
              && r.0[..|store|] == store
              && r.0[|store|] == ClaimRecord(r.1.value, text, StoredTranslation(translation), status, now, sentiment, category)
  {
    match write
    case StorageError => (store, None)
    case Committed =>
      var id := NextRowId(store);
      (store + [ClaimRecord(id, text, StoredTranslation(translation), status, now, sentiment, category)], Some(id))
  }

  /** Inserting keeps the ids of the table distinct. */
  lemma AddKeepsIdsUnique(store: Store, text: string, translation: Option<string>, status: string,
                          sentiment: string, category: string, now: int, write: WriteOutcome)
    requires UniqueIds(store)
    ensures UniqueIds(AddClaim(store, text, translation, status, sentiment, category, now, write).0)
  {
  }

  // ---------------------------------------------------------------------------------------
  // The last-hour query
  // ---------------------------------------------------------------------------------------

  const MicrosPerSecond: int := 1000000
  const OneHour: int := 3600 * MicrosPerSecond

  /** SQLite's `datetime()` of a timestamp: the instant truncated to whole seconds. */
  function WholeSeconds(t: int): int {
    t / MicrosPerSecond
  }

  const ListedCategories: set<string> := {"SERVICE", "PAYMENT", "OTHER"}

  /** The WHERE clause of the last-hour query. */
  predicate InLastHour(record: ClaimRecord, now: int) {
    && record.status == "open"
    && record.category in ListedCategories
    && WholeSeconds(record.timestamp) >= WholeSeconds(now - OneHour)
  }

  /**
   The window the comparison of whole seconds gives: every claim stamped at most an hour
   ago is in it, and nothing stamped a second or more before that.
   */
  lemma LastHourWindow(t: int, now: int)
    ensures t >= now - OneHour ==> WholeSeconds(t) >= WholeSeconds(now - OneHour)
    ensures WholeSeconds(t) >= WholeSeconds(now - OneHour) ==> t > now - OneHour - MicrosPerSecond
  {
  }

  /** The rows the WHERE clause keeps, each as often as it occurs. */
  function Select(store: Store, now: int): (r: Store)
    ensures forall x :: multiset(r)[x] == if InLastHour(x, now) then multiset(store)[x] else 0
  {
    if store == [] then []
    else
      assert store == [store[0]] + store[1..];
      (if InLastHour(store[0], now) then [store[0]] else []) + Select(store[1..], now)
  }

  ghost predicate NewestFirst(s: Store) {
    forall i, j :: 0 <= i < j < |s| ==> s[i].timestamp >= s[j].timestamp
  }

  function InsertByTime(x: ClaimRecord, s: Store): (r: Store)
    requires NewestFirst(s)
    ensures NewestFirst(r)
    ensures multiset(r) == multiset(s) + multiset{x}
    ensures |r| > 0 && (r[0] == x || (|s| > 0 && r[0] == s[0]))
  {
    if s == [] || x.timestamp >= s[0].timestamp then [x] + s
    else
      var rest := InsertByTime(x, s[1..]);
      assert s == [s[0]] + s[1..];
      [s[0]] + rest
  }

  /** `ORDER BY timestamp DESC`: a rearrangement of `s` with the newest rows first. */
  function SortNewestFirst(s: Store): (r: Store)
    ensures NewestFirst(r)
    ensures multiset(r) == multiset(s)
  {
    if s == [] then []
    else
      assert s == [s[0]] + s[1..];
      InsertByTime(s[0], SortNewestFirst(s[1..]))
  }

  /**
   `get_last_hour_claims`: the open SERVICE, PAYMENT and OTHER claims of the last hour,
   each row as often as it is stored, newest first.
   */
  function LastHourClaims(store: Store, now: int): (r: Store)
    ensures forall x :: multiset(r)[x] == if InLastHour(x, now) then multiset(store)[x] else 0
    ensures forall x :: x in r <==> x in store && InLastHour(x, now)
    ensures NewestFirst(r)
  {
    SortNewestFirst(Select(store, now))
  }

  // ---------------------------------------------------------------------------------------
  // Closing a claim
  // ---------------------------------------------------------------------------------------

  predicate HasId(store: Store, id: int) {
    exists i :: 0 <= i < |store| && store[i].id == id
  }

  /**
   `close_claim_by_id`: sets the status of the rows with that id to "closed" and changes
   nothing else; when no row has the id the answer is 404. A row that is already closed
   still matches, so closing it again succeeds.
   */
  function CloseClaim(store: Store, id: int): (r: Response<Store>)
    ensures r.HttpError? <==> !HasId(store, id)
    ensures r.HttpError? ==> r.status == NotFound
    ensures r.Ok? ==> |r.value| == |store|
    ensures r.Ok? ==> forall i :: 0 <= i < |store| ==>
              && r.value[i].(status := store[i].status) == store[i]
              && r.value[i].status == (if store[i].id == id then "closed" else store[i].status)
  {
    if HasId(store, id) then
      Ok(seq(|store|, i requires 0 <= i < |store| =>
        if store[i].id == id then store[i].(status := "closed") else store[i]))
    else HttpError(NotFound)
  }

  /** Closing twice is closing once: the second close succeeds and changes nothing. */
  lemma CloseIdempotent(store: Store, id: int)
    requires CloseClaim(store, id).Ok?
    ensures CloseClaim(CloseClaim(store, id).value, id) == CloseClaim(store, id)
  {
    var once := CloseClaim(store, id).value;
    assert once[..] == once;
    assert HasId(once, id) by {
      var i :| 0 <= i < |store| && store[i].id == id;
      assert once[i].id == id;
    }
    var twice := CloseClaim(once, id).value;
    assert forall i :: 0 <= i < |once| ==> twice[i] == once[i];
    assert twice == once;
  }

  /** A claim just added can be closed; the new row becomes closed and every other row is untouched. */
  lemma CloseAfterAdd(store: Store, text: string, translation: Option<string>, sentiment: string,
                      category: string, now: int)
    ensures var (added, id) := AddClaim(store, text, translation, "open", sentiment, category, now, Committed);
            && id.Some?
            && CloseClaim(added, id.value).Ok?
            && CloseClaim(added, id.value).value[..|store|] == store
            && CloseClaim(added, id.value).value[|store|].status == "closed"
  {
    var (added, id) := AddClaim(store, text, translation, "open", sentiment, category, now, Committed);
    assert added[|store|].id == id.value;
    var closed := CloseClaim(added, id.value).value;
    assert forall i :: 0 <= i < |store| ==> closed[i] == store[i];
  }
}
