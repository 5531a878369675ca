/** The termination message file: batches of results appended by rewriting a file that is never truncated. */
module TerminationLog {
  import opened Wrappers
  import opened Text
  import opened RunResults
  import opened JsonText
  import opened TerminationCodec

  const MAX_LENGTH := 4096

  // ----- The file -----

  // Writing bytes at the start of a file opened without truncation.
  function Overwrite(old_: string, bytes: string): string {
    if |bytes| < |old_| then bytes + old_[|bytes|..] else bytes
  }

  // What the next write starts from: what the file decodes to, or nothing.
  function Existing(f: Labels, contents: Option<string>): seq<RunResult> {
    if contents.None? then []
    else
      var entries := Decode(f, contents.value);
      if entries.None? then [] else entries.value
  }

  predicate Fits(f: Labels, xs: seq<RunResult>) {
    |Encode(f, xs)| <= MAX_LENGTH
  }

  function AfterWrite(f: Labels, contents: Option<string>, batch: seq<RunResult>): Option<string> {
    var all := Existing(f, contents) + batch;
    if Fits(f, all) then Some(Overwrite(if contents.None? then "" else contents.value, Encode(f, all)))
    else contents
  }

  class MessageFile {
    var contents: Option<string>   // None: no such file

    constructor ()
      ensures contents == None
    {
      contents := None;
    }

    method WriteMessage(batch: seq<RunResult>) returns (ok: bool)
      modifies this
      ensures contents == AfterWrite(LABELS, old(contents), batch)
      ensures ok <==> |Encode(LABELS, Existing(LABELS, old(contents)) + batch)| <= 4096
    {
      var pro := batch;
      if contents.Some? {
        var existing := Decode(LABELS, contents.value);
        if existing.Some? {
          pro := existing.value + pro;
        }
      }
      assert pro == Existing(LABELS, contents) + batch;
      var output := Encode(LABELS, pro);
      if |output| > MAX_LENGTH {
        return false;
      }
      var bytes := if contents.None? then "" else contents.value;
      contents := Some(if |output| < |bytes| then output + bytes[|output|..] else output);
      return true;
    }
  }

  // ----- One write over an encoded list -----

  ghost predicate Json(f: Labels) {
    Coherent(f) && f.key != "" && f.key[0] == '{'
  }

  lemma LabelsAreJson()
    ensures Json(LABELS)
  {
    LabelsCoherent();
  }

  lemma ExistingOfEncoded(f: Labels, xs: seq<RunResult>)
    requires Json(f)
    ensures Existing(f, Some(Encode(f, xs))) == CleanAll(xs)
  {
    ListReadsBack(f, xs, "");
    assert Encode(f, xs) + "" == Encode(f, xs);
  }

  // The bytes by which a batch lengthens the list it joins.
  function Growth(f: Labels, xs: seq<RunResult>, batch: seq<RunResult>): int {
    Added(f, batch) - if xs == [] && batch != [] then 1 else 0
  }

  // Reading the list back and adding a batch changes the length by what the batch takes up,
  // less three bytes for every invalid byte that was written.
  lemma LengthAfter(f: Labels, xs: seq<RunResult>, batch: seq<RunResult>)
    ensures |Encode(f, CleanAll(xs) + batch)| == |Encode(f, xs)| + Growth(f, xs, batch) - 3 * BadAll(xs)
  {
    EncodedLength(f, xs);
    EncodedLength(f, CleanAll(xs) + batch);
    AddedConcat(f, CleanAll(xs), batch);
    AddedShrinks(f, xs);
  }

  // The condition for a write to leave no stale tail, in terms of what the caller and the file hold.
  predicate Covers(f: Labels, xs: seq<RunResult>, batch: seq<RunResult>) {
    3 * BadAll(xs) <= Growth(f, xs, batch)
  }

  /** An accepted batch leaves exactly the encoding of the extended list if and only if it is at least as long as
      what replacing the invalid bytes saves; otherwise what is left does not decode at all. */
  lemma AppendIff(f: Labels, xs: seq<RunResult>, batch: seq<RunResult>)
    requires Json(f) && Fits(f, CleanAll(xs) + batch)
    ensures var next := AfterWrite(f, Some(Encode(f, xs)), batch);
      && (next == Some(Encode(f, CleanAll(xs) + batch)) <==> Covers(f, xs, batch))
      && (!Covers(f, xs, batch) ==> next.Some? && Decode(f, next.value) == None)
  {
    var was, now := Encode(f, xs), Encode(f, CleanAll(xs) + batch);
    ExistingOfEncoded(f, xs);
    LengthAfter(f, xs, batch);
    if |now| < |was| {
      ListReadsBack(f, CleanAll(xs) + batch, was[|now|..]);
    }
  }

  // ----- Whole histories, from an absent file -----

  // The file after a sequence of writes.
  function FileAfter(f: Labels, batches: seq<seq<RunResult>>): Option<string> {
    if batches == [] then None
    else AfterWrite(f, FileAfter(f, batches[..|batches| - 1]), batches[|batches| - 1])
  }

  // The batches that an append log with the length bound would take, concatenated; None before the first.
  function Accepted(f: Labels, batches: seq<seq<RunResult>>): Option<seq<RunResult>> {
    if batches == [] then None
    else
      var before, last := Accepted(f, batches[..|batches| - 1]), batches[|batches| - 1];
      var all := (if before.None? then [] else before.value) + last;
      if Fits(f, all) then Some(all) else before
  }

  // The same, with each batch added to what reading the file gives back.
  function View(f: Labels, batches: seq<seq<RunResult>>): Option<seq<RunResult>> {
    if batches == [] then None
    else
      var before, last := View(f, batches[..|batches| - 1]), batches[|batches| - 1];
      var all := (if before.None? then [] else CleanAll(before.value)) + last;
      if Fits(f, all) then Some(all) else before
  }

  function Encoded(f: Labels, view: Option<seq<RunResult>>): Option<string> {
    if view.None? then None else Some(Encode(f, view.value))
  }

  // Every accepted batch makes up for the invalid bytes before it.
  predicate NeverShrinks(f: Labels, batches: seq<seq<RunResult>>) {
    batches == [] ||
    (var init, last := batches[..|batches| - 1], batches[|batches| - 1];
     var view := View(f, init);
     NeverShrinks(f, init) && (view.Some? && Fits(f, CleanAll(view.value) + last) ==> Covers(f, view.value, last)))
  }

  lemma {:induction false} LogHolds(f: Labels, batches: seq<seq<RunResult>>)
    requires Json(f) && NeverShrinks(f, batches)
    ensures FileAfter(f, batches) == Encoded(f, View(f, batches))
  {
    if batches != [] {
      LogHolds(f, batches[..|batches| - 1]);
      LastWriteIff(f, batches);
    }
  }

  lemma LastWriteIff(f: Labels, batches: seq<seq<RunResult>>)
    requires Json(f) && batches != [] && NeverShrinks(f, batches[..|batches| - 1])
    requires FileAfter(f, batches[..|batches| - 1]) == Encoded(f, View(f, batches[..|batches| - 1]))
    ensures FileAfter(f, batches) == Encoded(f, View(f, batches)) <==> NeverShrinks(f, batches)
    ensures !NeverShrinks(f, batches) ==> FileAfter(f, batches).Some? && Decode(f, FileAfter(f, batches).value) == None
  {
    var view, last := View(f, batches[..|batches| - 1]), batches[|batches| - 1];
    if view.Some? {
      ExistingOfEncoded(f, view.value);
      if Fits(f, CleanAll(view.value) + last) {
        AppendIff(f, view.value, last);
      }
    }
  }

  /** A history holds the log up to its last write if and only if every accepted batch so far covered
      what replacing earlier invalid bytes saved; the first that does not leaves a file that decodes to nothing. */
  lemma AppendLogIff(f: Labels, batches: seq<seq<RunResult>>)
    requires Json(f) && batches != [] && NeverShrinks(f, batches[..|batches| - 1])
    ensures FileAfter(f, batches) == Encoded(f, View(f, batches)) <==> NeverShrinks(f, batches)
    ensures !NeverShrinks(f, batches) ==> FileAfter(f, batches).Some? && Decode(f, FileAfter(f, batches).value) == None
  {
    LogHolds(f, batches[..|batches| - 1]);
    LastWriteIff(f, batches);
  }

  predicate AllClean(batches: seq<seq<RunResult>>) {
    forall b :: b in batches ==> BadAll(b) == 0
  }

  lemma {:induction false} CleanNeverShrinks(f: Labels, batches: seq<seq<RunResult>>)
    requires AllClean(batches)
    ensures NeverShrinks(f, batches) && View(f, batches) == Accepted(f, batches)
    ensures View(f, batches).Some? ==> BadAll(View(f, batches).value) == 0
  {
    if batches != [] {
      var init, last := batches[..|batches| - 1], batches[|batches| - 1];
      CleanNeverShrinks(f, init);
      var before := View(f, init);
      var xs := if before.None? then [] else before.value;
      CleanAllKept(xs);
      AddedConcat(f, xs, last);
      GrowthNonNegative(f, xs, last);
    }
  }

  lemma GrowthNonNegative(f: Labels, xs: seq<RunResult>, batch: seq<RunResult>)
    ensures Growth(f, xs, batch) >= 0
  {
  }

  /** After any sequence of batches of valid text the file is exactly the encoding of the accepted ones,
      within the bound and without a stale tail. */
  lemma AppendLog(f: Labels, batches: seq<seq<RunResult>>)
    requires Json(f) && AllClean(batches)
    ensures FileAfter(f, batches) == Encoded(f, Accepted(f, batches))
    ensures FileAfter(f, batches).Some? ==> |FileAfter(f, batches).value| <= MAX_LENGTH
  {
    CleanNeverShrinks(f, batches);
    LogHolds(f, batches);
    AcceptedFits(f, batches);
  }

  lemma {:induction false} AcceptedFits(f: Labels, batches: seq<seq<RunResult>>)
    ensures Accepted(f, batches).Some? ==> Fits(f, Accepted(f, batches).value)
  {
    if batches != [] {
      AcceptedFits(f, batches[..|batches| - 1]);
    }
  }

  // ----- Why valid text is needed -----

  function InvalidBytes(n: nat): string {
    if n == 0 then "" else [0xFF as char] + InvalidBytes(n - 1)
  }

  lemma {:induction false} InvalidBytesCount(n: nat)
    ensures Bad(InvalidBytes(n)) == n && |QuoteBody(InvalidBytes(n))| == 6 * n
  {
    if n > 0 {
      InvalidBytesCount(n - 1);
      assert InvalidBytes(n)[1..] == InvalidBytes(n - 1);
    }
  }

  // A task result whose value is not text.
  function Spoiler(name: string, n: nat): RunResult {
    RunResult(name, InvalidBytes(n), "", TASK_RUN_RESULT)
  }

  lemma SpoilerLength(f: Labels, name: string, n: nat)
    requires Bad(name) == 0
    ensures BadAll([Spoiler(name, n)]) == n
    ensures |RecordText(f, Spoiler(name, n))| == |f.key| + |f.value| + |f.kind| + |Quote(name)| + 4 + 6 * n
  {
    InvalidBytesCount(n);
    assert [Spoiler(name, n)][1..] == [];
    assert |Numeral(TASK_RUN_RESULT)| == 1;
  }

  /** For every batch of moderate size, and every task result, there is a value of that result after which writing the
      batch loses everything: both writes succeed and the file no longer decodes. */
  lemma InvalidBytesSpoilTheLog(f: Labels, name: string, batch: seq<RunResult>) returns (n: nat)
    requires Json(f) && |f.key| + |f.value| + |f.kind| + |Quote(name)| <= 600 && Bad(name) == 0
    requires Added(f, batch) <= 1200
    ensures Fits(f, [Spoiler(name, n)]) && Fits(f, CleanAll([Spoiler(name, n)]) + batch)
    ensures var file := FileAfter(f, [[Spoiler(name, n)], batch]); file.Some? && Decode(f, file.value) == None
  {
    n := Added(f, batch) / 3 + 1;
    var first := [Spoiler(name, n)];
    SpoilerLength(f, name, n);
    assert Added(f, first) == 1 + |RecordText(f, Spoiler(name, n))| by {
      assert first[1..] == [];
    }
    EncodedLength(f, first);
    LengthAfter(f, first, batch);
    AppendIff(f, first, batch);
    var batches := [first, batch];
    assert batches[..1] == [first] && [first][..0] == [];
    assert [] + first == first;
    assert FileAfter(f, [first]) == AfterWrite(f, None, first);
  }
}
