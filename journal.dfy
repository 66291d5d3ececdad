/** The journal data set and its lookup (`getJournalData` in
    components/mdx-content.tsx), with the content pane's choice between a
    loaded entry and the "Failed to load journal entry" message. Entries are
    modelled by id, title and date; their prose is not modelled. */
module Journal {
  import opened Optional

  datatype JournalEntry = JournalEntry(id: int, title: string, date: string)

  /** The literal table, in source order. */
  const JournalEntries: seq<JournalEntry> := [
    JournalEntry(1, "Early Pattern Drawing", "June 2023"),
    JournalEntry(2, "CAN'T SIT STILL", "August 2023"),
    JournalEntry(3, "Adaptation & Growth", "September 2023"),
    JournalEntry(4, "Dots & Patterns", "October 2023"),
    JournalEntry(5, "Frame & Imperfections", "November 2023")
  ]

  /** The ids a lookup can find. */
  predicate IsEntryId(id: int) {
    1 <= id <= |JournalEntries|
  }

  /** `Array.prototype.find` on the id: the first entry with that id, if any. */
  function Find(entries: seq<JournalEntry>, id: int): (r: Option<JournalEntry>)
    ensures r.None? <==> forall k :: 0 <= k < |entries| ==> entries[k].id != id
    ensures r.Some? ==> exists k :: 0 <= k < |entries| && entries[k] == r.value
                              && entries[k].id == id
                              && forall j :: 0 <= j < k ==> entries[j].id != id
  {
    if entries == [] then None
    else if entries[0].id == id then Some(entries[0])
    else
      var r := Find(entries[1..], id);
      assert r.Some? ==> exists k :: 0 <= k < |entries| - 1 && entries[1..][k] == r.value
                              && entries[1..][k].id == id
                              && forall j :: 0 <= j < k ==> entries[1..][j].id != id;
      assert r.Some? ==> exists k :: 1 <= k < |entries| && entries[k] == r.value
                              && entries[k].id == id
                              && forall j :: 0 <= j < k ==> entries[j].id != id;
      r
  }

  /** The ids are 1 to 5, in order, hence distinct. */
  lemma EntryIdsInOrder()
    ensures |JournalEntries| == 5
    ensures forall k :: 0 <= k < |JournalEntries| ==> JournalEntries[k].id == k + 1
    ensures forall j, k :: 0 <= j < k < |JournalEntries| ==> JournalEntries[j].id != JournalEntries[k].id
  {
  }

  /** `find(entry => entry.id === journalId) || journalEntries[0]`: the entry with
      the requested id, or the first entry for any other id. It never fails. */
  function GetJournalData(journalId: int): (e: JournalEntry)
    ensures e in JournalEntries
    ensures IsEntryId(journalId) ==> e.id == journalId
    ensures !IsEntryId(journalId) ==> e == JournalEntries[0]
  {
    match Find(JournalEntries, journalId)
    case Some(entry) => entry
    case None => JournalEntries[0]
  }

  /** What the content pane shows once loading has finished. */
  datatype ContentView = FailedToLoad | Showing(entry: JournalEntry)

  /** The effect's fetch: `setJournal(getJournalData(journalId))`; the lookup
      cannot throw, so the `catch` branch never runs and the journal is set. */
  function FetchJournalContent(journalId: int): (journal: Option<JournalEntry>)
    ensures journal.Some? && journal.value in JournalEntries
  {
    Some(GetJournalData(journalId))
  }

  /** The `!journal` test after loading. */
  function ContentFor(journal: Option<JournalEntry>): (v: ContentView)
    ensures v == FailedToLoad <==> journal.None?
  {
    match journal
    case None => FailedToLoad
    case Some(entry) => Showing(entry)
  }

  /** "Failed to load journal entry" can never be shown: for every id the pane
      shows a table entry, the requested one when it exists. */
  lemma FailureBranchUnreachable(journalId: int)
    ensures ContentFor(FetchJournalContent(journalId)) != FailedToLoad
    ensures ContentFor(FetchJournalContent(journalId)).entry in JournalEntries
    ensures IsEntryId(journalId) ==> ContentFor(FetchJournalContent(journalId)).entry.id == journalId
  {
  }
}
