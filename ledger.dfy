/**
 * The audit ledger (core/scribe_agent.py): finalises each entry it is given
 * (defaulting its identifier, timestamp and one-line narrative summary) and
 * appends it to an append-only log. The JSON-lines file is modelled by the
 * sequence of entries it holds.
 */
module Ledger {
  import opened Common
  import opened Records

  /** A ledger entry: the keys the core writes and reads, each possibly absent. */
  datatype Entry = Entry(
    entryType: Option<string>,
    mandateId: Option<string>,
    executor: Option<string>,
    payload: Option<Mandate>,
    result: Option<Execution>,
    entryId: Option<string>,
    timestamp: Option<string>,
    narrativeSummary: Option<string>)

  /** An entry carrying only a type, a mandate id and the given payload/executor/result. */
  function NewEntry(entryType: string, mandateId: string, executor: Option<string>,
                    payload: Option<Mandate>, result: Option<Execution>): Entry
  {
    Entry(Some(entryType), Some(mandateId), executor, payload, result, None, None, None)
  }

  /** How a Python f-string renders an optional string: the text itself, or "None". */
  function Show(o: Option<string>): string {
    if o.Some? then o.value else "None"
  }

  /** The entry's type; "event" when it has none. */
  function EntryType(e: Entry): string {
    e.entryType.GetOr("event")
  }

  /** The entry's payload; the empty object when it has none. */
  function PayloadOf(e: Entry): Mandate {
    if e.payload.Some? then e.payload.value else EmptyObject
  }

  /**
   * The one-line summary derived from an entry's type: a sentence about the
   * created or executed mandate for the two mandate events, and otherwise the
   * summary the entry already has or "<type> recorded".
   */
  function NarrativeSummary(e: Entry): string
  {
    var et := EntryType(e);
    if et == "mandate_created" then
      var m := PayloadOf(e);
      "Mandate created by " + Show(m.issuer) + " for " + Show(m.beneficiary) + " (id=" + Show(m.mandateId) + ")"
    else if et == "mandate_executed" then
      "Mandate " + Show(e.mandateId) + " executed by " + Show(e.executor)
    else
      e.narrativeSummary.GetOr(et + " recorded")
  }

  /** The object `{}`: every key absent. */
  const EmptyObject := Mandate(None, None, None, None, None, None, None, None, false, None, None, None)

  /** The identifier the ledger gives an entry that has none: "entry-" and the clock's seconds. */
  function DefaultEntryId(clock: Clock): (r: string)
    ensures |r| > 6 && r[..6] == "entry-"
    ensures r[6..] == NatToString(clock.seconds)
  {
    "entry-" + NatToString(clock.seconds)
  }

  /**
   * Default identifiers collide exactly for entries appended within the same
   * second: the id determines the second and nothing more.
   */
  lemma DefaultEntryIdSameSecond(c1: Clock, c2: Clock)
    ensures DefaultEntryId(c1) == DefaultEntryId(c2) <==> c1.seconds == c2.seconds
  {
    NatToStringInjective(c1.seconds, c2.seconds);
    if DefaultEntryId(c1) == DefaultEntryId(c2) {
      assert DefaultEntryId(c1)[6..] == DefaultEntryId(c2)[6..];
    }
  }

  /** An entry that already carries all three keys the ledger defaults. */
  predicate IsFinal(e: Entry) {
    e.entryId.Some? && e.timestamp.Some? && e.narrativeSummary.Some?
  }

  /**
   * The entry `append_entry` writes: a copy of `e` in which only the missing
   * identifier, timestamp and summary are filled in; every supplied key is kept.
   */
  function Finalize(e: Entry, clock: Clock): (r: Entry)
    ensures IsFinal(r)
    ensures r == e.(entryId := r.entryId, timestamp := r.timestamp, narrativeSummary := r.narrativeSummary)
    ensures e.entryId.Some? ==> r.entryId == e.entryId
    ensures e.entryId.None? ==> r.entryId == Some(DefaultEntryId(clock))
    ensures e.timestamp.Some? ==> r.timestamp == e.timestamp
    ensures e.timestamp.None? ==> r.timestamp == Some(clock.iso)
    ensures e.narrativeSummary.Some? ==> r.narrativeSummary == e.narrativeSummary
    ensures e.narrativeSummary.None? ==> r.narrativeSummary == Some(NarrativeSummary(e))
  {
    var withId := if e.entryId.Some? then e else e.(entryId := Some(DefaultEntryId(clock)));
    var withTime := if withId.timestamp.Some? then withId else withId.(timestamp := Some(clock.iso));
    if withTime.narrativeSummary.Some? then withTime
    else withTime.(narrativeSummary := Some(NarrativeSummary(withTime)))
  }

  /** Finalising is idempotent: an entry the ledger wrote is written back unchanged, whatever the clock. */
  lemma FinalizeIdempotent(e: Entry, c1: Clock, c2: Clock)
    ensures Finalize(Finalize(e, c1), c2) == Finalize(e, c1)
  {
  }

  /** An entry without a summary gets one that depends only on its type and the keys the type reads. */
  lemma SummaryDeterminedBy(e1: Entry, e2: Entry)
    requires EntryType(e1) == EntryType(e2)
    requires PayloadOf(e1).issuer == PayloadOf(e2).issuer
    requires PayloadOf(e1).beneficiary == PayloadOf(e2).beneficiary
    requires PayloadOf(e1).mandateId == PayloadOf(e2).mandateId
    requires e1.mandateId == e2.mandateId && e1.executor == e2.executor
    requires e1.narrativeSummary == e2.narrativeSummary
    ensures NarrativeSummary(e1) == NarrativeSummary(e2)
  {
  }

  /**
   * Any other type, including a missing one (read as "event"), keeps the
   * entry's own summary when it has one and is otherwise "<type> recorded".
   */
  lemma SummaryFallback(e: Entry)
    requires EntryType(e) != "mandate_created" && EntryType(e) != "mandate_executed"
    ensures e.entryType.None? ==> NarrativeSummary(e) == e.narrativeSummary.GetOr("event recorded")
    ensures e.narrativeSummary.Some? ==> NarrativeSummary(e) == e.narrativeSummary.value
    ensures e.narrativeSummary.None? ==> NarrativeSummary(e) == EntryType(e) + " recorded"
  {
  }

  /** The ledger: the entries of the mission log, oldest first. */
  class ScribeAgent {
    var log: seq<Entry>

    /** Opens the log; a log file that already exists keeps its entries. */
    constructor (existing: seq<Entry>)
      ensures log == existing
    {
      log := existing;
    }

    /** Finalises `entry`, appends it at the end of the log and returns exactly what was appended. */
    method AppendEntry(entry: Entry, clock: Clock) returns (r: Entry)
      modifies this
      ensures r == Finalize(entry, clock)
      ensures log == old(log) + [r]
    {
      r := entry;
      if r.entryId.None? {
        r := r.(entryId := Some(DefaultEntryId(clock)));
      }
      if r.timestamp.None? {
        r := r.(timestamp := Some(clock.iso));
      }
      if r.narrativeSummary.None? {
        r := r.(narrativeSummary := Some(NarrativeSummary(r)));
      }
      log := log + [r];
    }
  }
}
