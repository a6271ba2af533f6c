/** The progress reporter, the updates it hands to its callback, and the reader that reports each chunk of a transfer
    (package `progress`). */
module Progress {
  import opened Trees

  datatype UpdateType = UpdateStart | UpdateProgress | UpdateComplete | UpdateError | UpdateOverall

  datatype Update = Event(kind: UpdateType, file: string, currentBytes: nat, currentTotal: nat,
                          filesCompleted: nat, filesTotal: nat, bytesCompleted: nat, bytesTotal: nat)

  predicate Within(u: Update) {
    u.filesCompleted <= u.filesTotal && u.bytesCompleted <= u.bytesTotal
  }

  predicate NoLaterThan(u: Update, v: Update) {
    u.filesCompleted <= v.filesCompleted && u.bytesCompleted <= v.bytesCompleted
  }

  /** A callback sees an overall account that never goes back and never passes the totals. */
  ghost predicate Steady(updates: seq<Update>) {
    && (forall i :: 0 <= i < |updates| ==> Within(updates[i]))
    && (forall i, j :: 0 <= i < j < |updates| ==> NoLaterThan(updates[i], updates[j]))
  }

  /** In order means that neither counter ever goes back or passes its total. */
  lemma SteadyMeans(updates: seq<Update>)
    ensures Steady(updates) <==>
            && (forall i :: 0 <= i < |updates| ==>
                  && updates[i].filesCompleted <= updates[i].filesTotal
                  && updates[i].bytesCompleted <= updates[i].bytesTotal)
            && (forall i, j :: 0 <= i < j < |updates| ==>
                  && updates[i].filesCompleted <= updates[j].filesCompleted
                  && updates[i].bytesCompleted <= updates[j].bytesCompleted)
  {
  }

  /** What was once out of order stays so. */
  lemma UnsteadyStays(before: seq<Update>, after: seq<Update>)
    requires before <= after && Steady(after)
    ensures Steady(before)
  {
    assert forall i :: 0 <= i < |before| ==> before[i] == after[i];
  }

  lemma SteadyNext(before: seq<Update>, u: Update)
    ensures Steady(before + [u]) <==>
            Steady(before) && Within(u) && forall i :: 0 <= i < |before| ==> NoLaterThan(before[i], u)
  {
    var after := before + [u];
    assert after[|before|] == u && forall i :: 0 <= i < |before| ==> after[i] == before[i];
    if Steady(after) {
      forall i | 0 <= i < |before| ensures NoLaterThan(before[i], u) {
        assert NoLaterThan(after[i], after[|before|]);
      }
    }
  }

  /** From position `n` on the callback was told of bytes of one file only. */
  ghost predicate OnlyProgress(updates: seq<Update>, n: nat, file: string, total: nat) {
    forall i :: n <= i < |updates| ==>
      updates[i].kind == UpdateProgress && updates[i].file == file && updates[i].currentTotal == total
  }

  class CallbackReporter {
    var currentFile: string
    var currentTotal: nat
    var currentBytes: nat
    var filesTotal: nat
    var bytesTotal: nat
    var filesCompleted: nat
    var bytesCompleted: nat
    /** Everything the callback has been given. */
    var updates: seq<Update>

    constructor ()
      ensures Fresh()
    {
      currentFile, currentTotal, currentBytes, filesTotal, bytesTotal := "", 0, 0, 0, 0;
      filesCompleted, bytesCompleted, updates := 0, 0, [];
    }

    /** Counters from zero and nothing reported yet. */
    predicate Fresh()
      reads this
    {
      filesCompleted == 0 && bytesCompleted == 0 && updates == []
    }

    /** Between transfers: nothing the callback saw was out of order or ahead of the counters. */
    ghost predicate Valid()
      reads this
    {
      && Steady(updates)
      && filesCompleted <= filesTotal && bytesCompleted <= bytesTotal
      && (forall i :: 0 <= i < |updates| ==>
            updates[i].filesCompleted <= filesCompleted && updates[i].bytesCompleted <= bytesCompleted)
    }

    /** During a transfer: the last update adds the bytes moved so far to the counter, none is ahead of it, and the
        account is in order as long as that sum is within the total. */
    ghost predicate Flowing()
      reads this
    {
      && filesCompleted <= filesTotal && bytesCompleted <= bytesTotal
      && (forall i :: 0 <= i < |updates| ==>
            updates[i].filesCompleted <= filesCompleted && updates[i].bytesCompleted <= bytesCompleted + currentBytes)
      && updates != [] && updates[|updates| - 1].bytesCompleted == bytesCompleted + currentBytes
      && (Steady(updates) <==> bytesCompleted + currentBytes <= bytesTotal)
    }

    method SetTotal(totalFiles: nat, totalBytes: nat)
      modifies `filesTotal, `bytesTotal
      ensures filesTotal == totalFiles && bytesTotal == totalBytes
      ensures old(Fresh()) ==> Valid()
    {
      filesTotal, bytesTotal := totalFiles, totalBytes;
    }

    /** Hands one update to the callback. */
    method Report(u: Update)
      modifies `updates
      ensures updates == old(updates) + [u]
      ensures Steady(updates) <==>
              && old(Steady(updates)) && Within(u)
              && forall i :: 0 <= i < |old(updates)| ==> NoLaterThan(old(updates)[i], u)
    {
      SteadyNext(updates, u);
      updates := updates + [u];
    }

    method Start(path: string, totalBytes: nat)
      modifies `currentFile, `currentTotal, `currentBytes, `updates
      ensures currentFile == path && currentTotal == totalBytes && currentBytes == 0
      ensures updates == old(updates) + [Event(UpdateStart, path, 0, totalBytes, filesCompleted, filesTotal,
                                               bytesCompleted, bytesTotal)]
      ensures old(Valid()) ==> Flowing()
    {
      currentFile, currentTotal, currentBytes := path, totalBytes, 0;
      Report(Event(UpdateStart, path, 0, totalBytes, filesCompleted, filesTotal, bytesCompleted, bytesTotal));
    }

    /** The bytes moved so far, reported on top of the completed ones. */
    method Update(bytesTransferred: nat)
      modifies `currentBytes, `updates
      ensures currentBytes == bytesTransferred
      ensures updates == old(updates) + [Event(UpdateProgress, currentFile, bytesTransferred, currentTotal,
                                               filesCompleted, filesTotal, bytesCompleted + bytesTransferred,
                                               bytesTotal)]
      ensures old(Flowing()) && old(currentBytes) <= bytesTransferred ==> Flowing()
    {
      currentBytes := bytesTransferred;
      Report(Event(UpdateProgress, currentFile, bytesTransferred, currentTotal, filesCompleted, filesTotal,
                   bytesCompleted + bytesTransferred, bytesTotal));
    }

    /** One more file and the bytes announced for it. As long as these fit the totals, the account stays in order
        exactly when no more bytes were moved than had been announced. */
    method Complete()
      modifies `filesCompleted, `bytesCompleted, `updates
      ensures filesCompleted == old(filesCompleted) + 1 && bytesCompleted == old(bytesCompleted) + currentTotal
      ensures updates == old(updates) + [Event(UpdateComplete, currentFile, currentTotal, currentTotal, filesCompleted,
                                               filesTotal, bytesCompleted, bytesTotal)]
      ensures old(Flowing()) && filesCompleted <= filesTotal && bytesCompleted <= bytesTotal ==>
                && (Steady(updates) <==> currentBytes <= currentTotal)
                && (Steady(updates) ==> Valid())
    {
      ghost var last := |updates| - 1;
      filesCompleted, bytesCompleted := filesCompleted + 1, bytesCompleted + currentTotal;
      Report(Event(UpdateComplete, currentFile, currentTotal, currentTotal, filesCompleted, filesTotal,
                   bytesCompleted, bytesTotal));
      assert old(Flowing()) ==> old(updates)[last].bytesCompleted == old(bytesCompleted) + currentBytes;
    }

    /** The counters without the bytes of the broken transfer: in order only if none had been moved. */
    method Error()
      modifies `updates
      ensures updates == old(updates) + [Event(UpdateError, currentFile, 0, 0, filesCompleted, filesTotal,
                                               bytesCompleted, bytesTotal)]
      ensures old(Valid()) ==> Valid()
      ensures old(Flowing()) ==> (Steady(updates) <==> currentBytes == 0) && (Steady(updates) ==> Valid())
    {
      ghost var last := |updates| - 1;
      Report(Event(UpdateError, currentFile, 0, 0, filesCompleted, filesTotal, bytesCompleted, bytesTotal));
      assert old(Flowing()) ==> old(updates)[last].bytesCompleted == bytesCompleted + currentBytes;
    }

    /** Reports the caller's own counters; the callback sees one consistent account when they agree with the
        reporter's. */
    method OverallProgress(files: nat, bytes: nat)
      modifies `updates
      ensures updates == old(updates) + [Event(UpdateOverall, "", 0, 0, files, filesTotal, bytes, bytesTotal)]
      ensures old(Valid()) && files == filesCompleted && bytes == bytesCompleted ==> Valid()
    {
      Report(Event(UpdateOverall, "", 0, 0, files, filesTotal, bytes, bytesTotal));
    }
  }

  /** A file's content on its way, in whatever chunks the system hands it over. */
  class ProgressReader {
    const reporter: CallbackReporter
    var rest: Bytes
    var transferred: nat

    constructor (content: Bytes, reporter: CallbackReporter)
      ensures rest == content && this.reporter == reporter && transferred == 0
    {
      this.rest, this.reporter, transferred := content, reporter, 0;
    }

    /** The reporter has been told of every byte handed over. */
    ghost predicate Told()
      reads this, reporter
    {
      reporter.Flowing() && reporter.currentBytes == transferred
    }

    /** Some bytes, at most `capacity`; none only at the end. */
    method Read(capacity: nat) returns (data: Bytes)
      requires capacity > 0
      modifies this, reporter`currentBytes, reporter`updates
      ensures data + rest == old(rest) && |data| <= capacity && (data == [] ==> rest == [])
      ensures transferred == old(transferred) + |data| && old(reporter.updates) <= reporter.updates
      ensures OnlyProgress(reporter.updates, |old(reporter.updates)|, reporter.currentFile, reporter.currentTotal)
      ensures old(Told()) ==> Told()
    {
      if rest == [] { return []; }
      var n: nat :| 0 < n <= capacity && n <= |rest|;
      data := rest[..n];
      rest := rest[n..];
      transferred := transferred + n;
      reporter.Update(transferred);
    }

    /** io.Copy: everything the reader has, chunk by chunk. */
    method ReadAll(bufferSize: nat) returns (content: Bytes)
      requires bufferSize > 0
      modifies this, reporter`currentBytes, reporter`updates
      ensures content == old(rest) && rest == [] && transferred == old(transferred) + |content|
      ensures old(reporter.updates) <= reporter.updates
      ensures OnlyProgress(reporter.updates, |old(reporter.updates)|, reporter.currentFile, reporter.currentTotal)
      ensures old(Told()) ==> Told()
    {
      content := [];
      var data := Read(bufferSize);
      while data != []
        invariant content + data + rest == old(rest) && (data == [] ==> rest == [])
        invariant transferred == old(transferred) + |content + data| && old(reporter.updates) <= reporter.updates
        invariant OnlyProgress(reporter.updates, |old(reporter.updates)|, reporter.currentFile, reporter.currentTotal)
        invariant old(Told()) ==> Told()
        decreases |data| + |rest|
      {
        content := content + data;
        ghost var left := rest;
        data := Read(bufferSize);
        assert content + data + rest == content + left;
      }
    }
  }
}
