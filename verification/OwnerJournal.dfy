/** The durable ownership journal: one record, changed only by exact
    compare-and-swap under the journal lock. */
module OwnerJournal {
  import opened Lists
  import opened Strings

  // ---- records and their validation ----

  datatype ProcessIdentity = ProcessIdentity(bootId: string, pid: nat, startTime: nat) {
    predicate Valid() {
      !Blank(bootId) && pid != 0 && startTime != 0
    }
  }

  datatype Phase = Pending | Attached | Stopping

  datatype Record = Record(attempt: string, issuer: ProcessIdentity, extension: Option<ProcessIdentity>, phase: Phase) {
    /** Exactly an attached record names an Extension. */
    predicate Valid() {
      && !Blank(attempt) && issuer.Valid()
      && (extension.Some? ==> extension.value.Valid())
      && (extension.Some? <==> phase.Attached?)
    }
  }

  /** `None` when the journal file is missing. */
  type Journal = Option<Record>

  predicate ValidJournal(j: Journal) {
    j.Some? ==> j.value.Valid()
  }

  // ---- the compare-and-swaps ----

  datatype Answer = Yes | No | Error

  predicate Names(j: Journal, attempt: string) {
    j.Some? && j.value.attempt == attempt
  }

  function CreatePending(j: Journal, r: Record): (Journal, bool) {
    if r.Valid() && r.phase.Pending? && (j.None? || j == Some(r)) then (Some(r), true) else (j, false)
  }

  function UpgradeAttached(j: Journal, attempt: string, issuer: ProcessIdentity, extension: ProcessIdentity): (Journal, bool) {
    var attached := Some(Record(attempt, issuer, Some(extension), Attached));
    if !(attached.value.Valid() && (j == Some(Record(attempt, issuer, None, Pending)) || j == attached)) then (j, false)
    else (attached, true)
  }

  function FencePendingStop(j: Journal, attempt: string, issuer: ProcessIdentity): (Journal, Answer) {
    var fenced := Record(attempt, issuer, None, Stopping);
    if !fenced.Valid() then (j, Error)
    else if j == Some(Record(attempt, issuer, None, Pending)) || j == Some(fenced) then (Some(fenced), Yes)
    else (j, No)
  }

  function RebindAttached(j: Journal, attempt: string, issuer: ProcessIdentity, expected: ProcessIdentity,
                          replacement: ProcessIdentity): (Journal, bool)
  {
    var rebound := Some(Record(attempt, issuer, Some(replacement), Attached));
    if rebound.value.Valid() && expected.Valid() && (j == Some(Record(attempt, issuer, Some(expected), Attached)) || j == rebound)
    then (rebound, true)
    else (j, false)
  }

  function DeleteExact(j: Journal, attempt: string, extension: Option<ProcessIdentity>): (Journal, Answer) {
    if Blank(attempt) || (extension.Some? && !extension.value.Valid()) then (j, Error)
    else if Names(j, attempt) && j.value.extension == extension then (None, Yes)
    else (j, No)
  }

  function DeletePending(j: Journal, attempt: string): (Journal, Answer) {
    if Blank(attempt) then (j, Error)
    else if Names(j, attempt) && j.value.phase.Pending? && j.value.extension.None? then (None, Yes)
    else (j, No)
  }

  // ---- when they succeed ----

  /** Valid arguments. */
  predicate Plain(attempt: string, p: ProcessIdentity, q: ProcessIdentity) {
    !Blank(attempt) && p.Valid() && q.Valid()
  }

  /** An attachment succeeds on the pending record of the attempt and issuer, and the
      record then names the Extension. */
  lemma PendingAttaches(attempt: string, issuer: ProcessIdentity, e: ProcessIdentity)
    requires Plain(attempt, issuer, e)
    ensures UpgradeAttached(Some(Record(attempt, issuer, None, Pending)), attempt, issuer, e)
         == (Some(Record(attempt, issuer, Some(e), Attached)), true)
  {
  }

  /** A rebind succeeds exactly on an attached record of the attempt and issuer that
      names the expected Extension or already the replacement, and the record then
      names the replacement. */
  lemma RebindSucceedsIff(j: Journal, attempt: string, issuer: ProcessIdentity, expected: ProcessIdentity, e: ProcessIdentity)
    requires ValidJournal(j) && Plain(attempt, issuer, e) && expected.Valid()
    ensures var (k, ok) := RebindAttached(j, attempt, issuer, expected, e);
      && (ok <==> && Names(j, attempt) && j.value.issuer == issuer && j.value.extension in {Some(expected), Some(e)})
      && (ok ==> Names(k, attempt) && k.value.extension == Some(e) && k.value.issuer == issuer)
      && (!ok ==> k == j)
  {
  }

  /** A pending record can be fenced, or deleted; an attached one can be deleted by
      naming its Extension. */
  lemma DeletesSucceed(attempt: string, issuer: ProcessIdentity, e: ProcessIdentity)
    requires Plain(attempt, issuer, e)
    ensures var pending := Some(Record(attempt, issuer, None, Pending));
      && FencePendingStop(pending, attempt, issuer) == (Some(Record(attempt, issuer, None, Stopping)), Yes)
      && DeletePending(pending, attempt) == (None, Yes)
      && DeleteExact(pending, attempt, None) == (None, Yes)
    ensures DeleteExact(Some(Record(attempt, issuer, None, Stopping)), attempt, None) == (None, Yes)
    ensures DeleteExact(Some(Record(attempt, issuer, Some(e), Attached)), attempt, Some(e)) == (None, Yes)
  {
  }

  // ---- the life of a record ----

  /** What one operation may do to the record: an attempt is created pending,
      is either fenced or attached, may then change its Extension, and may be
      deleted from any phase. */
  predicate Edge(j: Journal, k: Journal) {
    || j == k
    || k.None?
    || (j.None? && k.value.phase.Pending?)
    || (&& j.Some? && k.value.attempt == j.value.attempt && k.value.issuer == j.value.issuer
        && (j.value.phase.Pending? || (j.value.phase.Attached? && k.value.phase.Attached?)))
  }

  lemma EveryOperationIsAnEdge(j: Journal, r: Record, attempt: string, p: ProcessIdentity, q: ProcessIdentity,
                               e: ProcessIdentity, extension: Option<ProcessIdentity>)
    requires ValidJournal(j)
    ensures forall k | k in [CreatePending(j, r).0, UpgradeAttached(j, attempt, p, e).0, FencePendingStop(j, attempt, p).0,
                             RebindAttached(j, attempt, p, q, e).0, DeleteExact(j, attempt, extension).0,
                             DeletePending(j, attempt).0]
              :: ValidJournal(k) && Edge(j, k)
  {
  }

  /** The fence and the attachment exclude each other: whichever operation
      succeeds first, the other one fails on what it leaves behind. */
  lemma FenceExcludesAttachment(j: Journal, attempt: string, p: ProcessIdentity, q: ProcessIdentity, e: ProcessIdentity,
                                f: ProcessIdentity)
    requires ValidJournal(j)
    ensures FencePendingStop(j, attempt, p).1.Yes? ==>
              var k := FencePendingStop(j, attempt, p).0;
              && UpgradeAttached(k, attempt, q, e) == (k, false)
              && RebindAttached(k, attempt, q, f, e) == (k, false)
              && DeletePending(k, attempt) == (k, No)
    ensures UpgradeAttached(j, attempt, p, e).1 ==>
              var k := UpgradeAttached(j, attempt, p, e).0;
              && FencePendingStop(k, attempt, p) == (k, No)
              && DeletePending(k, attempt) == (k, No)
              && DeleteExact(k, attempt, None) == (k, No)
  {
  }

  /** Every compare-and-swap may be retried after it succeeded. */
  lemma RetryIsIdempotent(j: Journal, r: Record, attempt: string, p: ProcessIdentity, q: ProcessIdentity, e: ProcessIdentity)
    ensures var (k, done) := CreatePending(j, r); done ==> CreatePending(k, r) == (k, true)
    ensures var (k, done) := UpgradeAttached(j, attempt, p, e); done ==> UpgradeAttached(k, attempt, p, e) == (k, true)
    ensures var (k, done) := FencePendingStop(j, attempt, p); done.Yes? ==> FencePendingStop(k, attempt, p) == (k, Yes)
    ensures var (k, done) := RebindAttached(j, attempt, p, q, e); done ==> RebindAttached(k, attempt, p, q, e) == (k, true)
  {
  }

  /** Of two replacements for the same dead Extension only the first one wins. */
  lemma OneReplacementWins(j: Journal, attempt: string, p: ProcessIdentity, dead: ProcessIdentity, e: ProcessIdentity,
                           f: ProcessIdentity)
    requires e != f && e != dead && RebindAttached(j, attempt, p, dead, e).1
    ensures var k := RebindAttached(j, attempt, p, dead, e).0;
            RebindAttached(k, attempt, p, dead, f) == (k, false) && DeleteExact(k, attempt, Some(dead)).1 != Yes
  {
  }

  // ---- the journal file ----

  class JournalFile {
    var record: Journal

    ghost predicate Valid()
      reads this
    {
      ValidJournal(record)
    }

    constructor ()
      ensures Valid() && record == None
    {
      record := None;
    }

    method CreatePendingExact(r: Record) returns (ok: bool)
      requires Valid()
      modifies this
      ensures Valid() && (record, ok) == CreatePending(old(record), r)
      ensures r.Valid() && r.phase.Pending? ==> (ok <==> old(record).None? || old(record) == Some(r))
      ensures !(r.Valid() && r.phase.Pending?) ==> !ok
      ensures record == if ok then Some(r) else old(record)
    {
      if !r.Valid() {
        return false;
      }
      if !r.phase.Pending? || r.extension.Some? {
        return false;
      }
      if record.None? {
        record := Some(r);
        return true;
      }
      return record.value == r;
    }

    method UpgradeAttachedExact(attempt: string, issuer: ProcessIdentity, extension: ProcessIdentity) returns (ok: bool)
      requires Valid()
      modifies this
      ensures Valid() && (record, ok) == UpgradeAttached(old(record), attempt, issuer, extension)
      ensures !Blank(attempt) && issuer.Valid() && extension.Valid() ==>
                (ok <==> && Names(old(record), attempt) && old(record).value.issuer == issuer
                         && (old(record).value.phase.Pending? || old(record).value.extension == Some(extension)))
      ensures ok ==> record == Some(Record(attempt, issuer, Some(extension), Attached))
      ensures !ok ==> record == old(record)
    {
      if Blank(attempt) || !issuer.Valid() || !extension.Valid() {
        return false;
      }
      if record.None? {
        return false;
      }
      var current := record.value;
      if current.attempt != attempt || current.issuer != issuer {
        return false;
      }
      if current.phase.Pending? && current.extension.None? {
        record := Some(current.(phase := Attached, extension := Some(extension)));
        return true;
      }
      return current.phase.Attached? && current.extension == Some(extension);
    }

    method FencePendingStopExact(attempt: string, issuer: ProcessIdentity) returns (answer: Answer)
      requires Valid()
      modifies this
      ensures Valid() && (record, answer) == FencePendingStop(old(record), attempt, issuer)
      ensures !Blank(attempt) && issuer.Valid() ==>
                !answer.Error? && (answer.Yes? <==> && Names(old(record), attempt) && old(record).value.issuer == issuer
                                                    && !old(record).value.phase.Attached?)
      ensures answer.Yes? ==> record == Some(Record(attempt, issuer, None, Stopping))
      ensures !answer.Yes? ==> record == old(record)
    {
      if Blank(attempt) || !issuer.Valid() {
        return Error;
      }
      if record.None? {
        return No;
      }
      var current := record.value;
      if current.attempt != attempt || current.issuer != issuer {
        return No;
      }
      match current.phase {
        case Pending =>
          record := Some(current.(phase := Stopping));
          return Yes;
        case Stopping => return Yes;
        case Attached => return No;
      }
    }

    method RebindAttachedExact(attempt: string, issuer: ProcessIdentity, expected: ProcessIdentity,
                               replacement: ProcessIdentity)
      returns (ok: bool)
      requires Valid()
      modifies this
      ensures Valid() && (record, ok) == RebindAttached(old(record), attempt, issuer, expected, replacement)
      ensures !Blank(attempt) && issuer.Valid() && expected.Valid() && replacement.Valid() ==>
                (ok <==> && Names(old(record), attempt) && old(record).value.issuer == issuer
                         && old(record).value.extension in {Some(expected), Some(replacement)})
      ensures ok ==> record == Some(Record(attempt, issuer, Some(replacement), Attached))
      ensures !ok ==> record == old(record)
    {
      if Blank(attempt) || !issuer.Valid() || !expected.Valid() || !replacement.Valid() {
        return false;
      }
      if record.None? {
        return false;
      }
      var current := record.value;
      if current.attempt != attempt || current.issuer != issuer || !current.phase.Attached? {
        return false;
      }
      if current.extension == Some(expected) {
        if expected != replacement {
          record := Some(current.(extension := Some(replacement)));
        }
        return true;
      }
      return current.extension == Some(replacement);
    }

    method DeleteRecordExact(attempt: string, extension: Option<ProcessIdentity>) returns (answer: Answer)
      requires Valid()
      modifies this
      ensures Valid() && (record, answer) == DeleteExact(old(record), attempt, extension)
      ensures !Blank(attempt) && (extension.Some? ==> extension.value.Valid()) ==>
                !answer.Error? && (answer.Yes? <==> Names(old(record), attempt) && old(record).value.extension == extension)
      ensures record == if answer.Yes? then None else old(record)
    {
      if Blank(attempt) || (extension.Some? && !extension.value.Valid()) {
        return Error;
      }
      if record.None? {
        return No;
      }
      if record.value.attempt != attempt || record.value.extension != extension {
        return No;
      }
      record := None;
      return Yes;
    }

    method DeletePendingExact(attempt: string) returns (answer: Answer)
      requires Valid()
      modifies this
      ensures Valid() && (record, answer) == DeletePending(old(record), attempt)
      ensures !Blank(attempt) ==> !answer.Error? && (answer.Yes? <==> Names(old(record), attempt) && old(record).value.phase.Pending?)
      ensures record == if answer.Yes? then None else old(record)
    {
      if Blank(attempt) {
        return Error;
      }
      if record.None? {
        return No;
      }
      if record.value.attempt != attempt || !record.value.phase.Pending? || record.value.extension.Some? {
        return No;
      }
      record := None;
      return Yes;
    }
  }
}
