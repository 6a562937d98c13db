/**
 Consuming an inbox: the claim, the dead-letter move with all its half-done
 outcomes, the `drain` batch and the single `read`.

 The boxes are changed in place and every operation that can fail does so as an
 oracle says.  Of an error only what `errors.As` can see matters: whether it holds a
 partial dead-letter transition, and the first committed-but-unsynced path in it.
 What happens is stated file by file, over `FileState`.
 */
module Maildir {
  import opened Text

  datatype Place = AtCur | AtDlq

  datatype Err = Err(partial: bool, committed: Option<Place>, notExist: bool)

  const PLAIN := Err(false, None, false)

  /** `errors.Join`: `errors.As` searches the left error first. */
  function Both(a: Err, b: Err): Err {
    Err(a.partial || b.partial, if a.committed.Some? then a.committed else b.committed, false)
  }

  datatype Stage = Drained | DeadLettered

  datatype Item = Item(file: string, parseError: bool, movedToCur: bool, movedToDlq: bool)

  datatype Dirs = DirsExist | DirsGone | DirsUnknown

  datatype Deliver = Delivered | DeliveredUnsynced | NotDelivered

  /** What goes wrong, per file. */
  datatype Io = Io(
    stolen: string -> bool,          // another consumer takes the file just before the claim
    stolenTo: string -> Place,       // and leaves it in cur or moves it on to the DLQ
    claimFails: string -> bool,
    claimUnsynced: string -> bool,
    dirs: string -> Dirs,
    hookFails: string -> bool,
    unreadable: string -> bool,
    dlqPrepareFails: string -> bool, // reading the source or making the envelope
    deliver: string -> Deliver,
    removeFails: string -> bool,
    removeUnsynced: string -> bool,
    resyncFails: string -> bool)

  /** All that can be observed of a mailbox. */
  datatype View = View(
    newBox: map<string, string>,
    curBox: map<string, string>,
    dlq: seq<(string, string)>,       // original file and the bytes kept in the envelope
    receipts: seq<(string, Stage)>)   // receipts attempted

  /** The same for one file. */
  datatype FileState = FileState(inNew: Option<string>, inCur: Option<string>, dead: seq<string>, receipts: seq<Stage>)

  function OfFile<T>(log: seq<(string, T)>, f: string): seq<T> {
    if log == [] then []
    else
      var k := |log| - 1;
      OfFile(log[..k], f) + if log[k].0 == f then [log[k].1] else []
  }

  lemma LogAppend<T>(log: seq<(string, T)>, f: string, x: T, g: string)
    ensures OfFile(log + [(f, x)], g) == OfFile(log, g) + if f == g then [x] else []
  {
    assert (log + [(f, x)])[..|log|] == log;
  }

  function Of(v: View, f: string): FileState {
    FileState(Lookup(v.newBox, f), Lookup(v.curBox, f), OfFile(v.dlq, f), OfFile(v.receipts, f))
  }

  /** Nothing about any other file differs. */
  ghost predicate OthersSame(a: View, b: View, f: string) {
    forall g :: g != f ==> Of(a, g) == Of(b, g)
  }

  lemma OthersCompose(a: View, b: View, c: View, f: string)
    requires OthersSame(a, b, f) && OthersSame(b, c, f)
    ensures OthersSame(a, c, f)
  {
    hide Of;
  }

  // ---- what may have happened to one file ----

  /** Taken from new to cur. */
  function Claimed(a: FileState): FileState {
    a.(inNew := None, inCur := a.inNew)
  }

  /** Taken from new and dead-lettered. */
  function Buried(a: FileState): FileState
    requires a.inNew.Some?
  {
    a.(inNew := None, dead := a.dead + [a.inNew.value])
  }

  predicate Claimable(a: FileState) {
    a.inNew.Some? && a.inCur.None?
  }

  /** Only this error may end a dead-letter move that leaves an envelope and the source behind. */
  predicate IsPartial(err: Option<Err>) {
    err.Some? && err.value.partial
  }

  /**
   What an item reports is what happened to its file: it left new and is, with its bytes, either in cur with a
   drained receipt attempted, or in the DLQ with a dlq receipt attempted, or, when the batch ends with an
   error, retained in cur without a receipt, and in the DLQ as well exactly when the error says so.
   */
  predicate Settled(a: FileState, b: FileState, it: Item, err: Option<Err>) {
    && Claimable(a)
    && !(it.movedToCur && it.movedToDlq)
    && b == FileState(
         None,
         if it.movedToDlq then None else a.inNew,
         a.dead + (if it.movedToDlq || (!it.movedToCur && IsPartial(err)) then [a.inNew.value] else []),
         a.receipts + (if it.movedToCur then [Drained] else if it.movedToDlq then [DeadLettered] else []))
    && (!it.movedToCur && !it.movedToDlq ==> err.Some?)
  }

  /** Another consumer took the file, to cur or on to the DLQ. */
  predicate Taken(a: FileState, b: FileState) {
    Claimable(a) && (b == Claimed(a) || b == Buried(a))
  }

  /** The file was not claimed here: untouched, or taken by another consumer. */
  predicate Skipped(a: FileState, b: FileState) {
    b == a || Taken(a, b)
  }

  /** The outcome of one listed file. */
  predicate Outcome(a: FileState, b: FileState, it: Option<Item>, err: Option<Err>) {
    if it.Some? then Settled(a, b, it.value, err) else Skipped(a, b)
  }

  /** How many copies of a message that was only in new are now visible. */
  function Copies(a: FileState, b: FileState): int {
    (if b.inNew.Some? then 1 else 0) + (if b.inCur.Some? then 1 else 0) + |b.dead| - |a.dead|
  }

  // ---- what must happen to one file ----

  /** The envelope gets published. */
  predicate Publishes(io: Io, f: string) {
    !io.dlqPrepareFails(f) && !io.deliver(f).NotDelivered?
  }

  /** And the source removed: the dead-letter move goes through. */
  predicate MovesOn(io: Io, f: string) {
    Publishes(io, f) && io.deliver(f).Delivered? && !io.removeFails(f)
  }

  /** And everything is known to be on disk, the claim included. */
  predicate Settles(io: Io, f: string, claimInDoubt: bool) {
    MovesOn(io, f) && if claimInDoubt then !io.resyncFails(f) else !io.removeUnsynced(f)
  }

  predicate Parses(good: string -> bool, io: Io, f: string, text: string) {
    !io.unreadable(f) && good(text)
  }

  /** The item of a claimed file: in cur if it parses, in the DLQ if it does not and can be moved there. */
  function ItemFor(io: Io, f: string, parses: bool): Item {
    if io.hookFails(f) then Item(f, true, false, false)
    else if parses then Item(f, false, true, false)
    else Item(f, true, false, MovesOn(io, f))
  }

  /** Whether the turn of a claimed file ends the batch with an error. */
  predicate FailsFor(io: Io, f: string, parses: bool) {
    io.hookFails(f) || if parses then io.claimUnsynced(f) else !Settles(io, f, io.claimUnsynced(f))
  }

  /** Whether it leaves both the envelope and the source. */
  predicate PartialFor(io: Io, f: string, parses: bool) {
    !io.hookFails(f) && !parses && Publishes(io, f) && !MovesOn(io, f)
  }

  /** Whether a turn ends the batch; a file that is gone is skipped while the mailbox exists. */
  predicate TurnFails(a: FileState, good: string -> bool, io: Io, f: string) {
    if Claimable(a) && !io.stolen(f) && !io.claimFails(f) then FailsFor(io, f, Parses(good, io, f, a.inNew.value))
    else io.claimFails(f) || (a.inNew.Some? && !(io.stolen(f) && Claimable(a))) || !io.dirs(f).DirsExist?
  }

  /** No operation on this file goes wrong and nobody else takes it. */
  predicate Smooth(io: Io, f: string) {
    && !io.stolen(f) && !io.claimFails(f) && !io.claimUnsynced(f) && io.dirs(f).DirsExist? && !io.hookFails(f)
    && !io.unreadable(f) && !io.dlqPrepareFails(f) && io.deliver(f).Delivered? && !io.removeFails(f)
    && !io.removeUnsynced(f)
  }

  /** Then the turn succeeds, and the message ends in cur if it parses and in the DLQ if it does not. */
  lemma SmoothTurn(a: FileState, good: string -> bool, io: Io, f: string)
    requires Claimable(a) && Smooth(io, f)
    ensures !TurnFails(a, good, io, f)
    ensures ItemFor(io, f, Parses(good, io, f, a.inNew.value))
            == if good(a.inNew.value) then Item(f, false, true, false) else Item(f, true, false, true)
  {
  }

  // ---- what a batch may have done ----

  function Files(items: seq<Item>): (r: seq<string>)
    ensures |r| == |items| && forall k :: 0 <= k < |items| ==> r[k] == items[k].file
  {
    seq(|items|, k requires 0 <= k < |items| => items[k].file)
  }

  /** Every item is settled; all but the last completely, and the last too unless the batch ends with an error. */
  ghost predicate AllSettled(v0: View, v: View, items: seq<Item>, err: Option<Err>) {
    && (forall k :: 0 <= k < |items| ==> Settled(Of(v0, items[k].file), Of(v, items[k].file), items[k], err))
    && (forall k :: 0 <= k < |items| - 1 ==> items[k].movedToCur || items[k].movedToDlq)
  }

  /** Files without an item were not claimed here, and those not reached are untouched. */
  ghost predicate OthersSkipped(v0: View, v: View, listing: seq<string>, n: nat, items: seq<Item>) {
    && n <= |listing|
    && (forall f :: f !in Files(items) ==> Skipped(Of(v0, f), Of(v, f)))
    && (forall f :: f !in listing[..n] ==> Of(v, f) == Of(v0, f))
  }

  /** Items come one per file, from the files already reached. */
  predicate OnePerFile(listing: seq<string>, n: nat, items: seq<Item>) {
    n <= |listing| && Distinct(Files(items)) && forall f :: f in Files(items) ==> f in listing[..n]
  }

  /** No file already reached is still in new. */
  ghost predicate NoneLeft(v: View, listing: seq<string>, n: nat) {
    n <= |listing| && forall i :: 0 <= i < n ==> Of(v, listing[i]).inNew.None?
  }

  ghost predicate Batch(v0: View, v: View, listing: seq<string>, n: nat, items: seq<Item>, err: Option<Err>) {
    && AllSettled(v0, v, items, err) && OthersSkipped(v0, v, listing, n, items) && OnePerFile(listing, n, items)
    && (err.None? ==> NoneLeft(v, listing, n))
  }

  function Add(items: seq<Item>, it: Option<Item>): seq<Item> {
    if it.Some? then items + [it.value] else items
  }

  lemma AddFiles(items: seq<Item>, it: Option<Item>)
    ensures Files(Add(items, it)) == Files(items) + if it.Some? then [it.value.file] else []
  {
  }

  lemma AddClaims(claims: seq<string>, items: seq<Item>, it: Option<Item>)
    ensures claims + Files(Add(items, it)) == claims + Files(items) + if it.Some? then [it.value.file] else []
  {
    AddFiles(items, it);
  }

  lemma FilesOfAdd(items: seq<Item>, it: Option<Item>, f: string)
    ensures f in Files(Add(items, it)) <==> f in Files(items) || (it.Some? && it.value.file == f)
  {
    AddFiles(items, it);
  }

  lemma ReachedNext(listing: seq<string>, n: nat)
    requires n < |listing| && Distinct(listing)
    ensures listing[n] !in listing[..n]
    ensures forall f :: f in listing[..n + 1] <==> f in listing[..n] || f == listing[n]
  {
    assert listing[..n + 1] == listing[..n] + [listing[n]];
  }

  /** One more turn of the loop keeps what is known about the batch. */
  lemma BatchStep(v0: View, v: View, w: View, listing: seq<string>, n: nat, items: seq<Item>, it: Option<Item>,
      err: Option<Err>)
    requires n < |listing| && Distinct(listing) && Batch(v0, v, listing, n, items, None)
    requires OthersSame(v, w, listing[n]) && Outcome(Of(v, listing[n]), Of(w, listing[n]), it, err)
    requires it.Some? ==> it.value.file == listing[n]
    requires it.None? && err.None? ==> Of(w, listing[n]).inNew.None?
    ensures Batch(v0, w, listing, n + 1, Add(items, it), err)
  {
    hide Of, Files;
    var f, more := listing[n], Add(items, it);
    ReachedNext(listing, n);
    forall g ensures g in Files(more) <==> g in Files(items) || (it.Some? && f == g) { FilesOfAdd(items, it, g); }
    assert Of(v, f) == Of(v0, f);
    assert f !in Files(items);
    forall k | 0 <= k < |items| ensures items[k].file != f { assert Files(items)[k] == items[k].file; }
    assert AllSettled(v0, w, more, err);
    assert OnePerFile(listing, n + 1, more) by {
      forall i, j | 0 <= i < j < |more| ensures Files(more)[i] != Files(more)[j] {
        if j < |items| { assert Files(items)[i] != Files(items)[j]; }
      }
    }
    assert err.None? ==> NoneLeft(w, listing, n + 1);
  }

  /** Every item is the one its file must have, by what was in new. */
  ghost predicate ItemsExact(v0: View, good: string -> bool, io: Io, items: seq<Item>) {
    forall k :: 0 <= k < |items| ==> ItemExact(Of(v0, items[k].file), good, io, items[k])
  }

  predicate ItemExact(a: FileState, good: string -> bool, io: Io, it: Item) {
    a.inNew.Some? && it == ItemFor(io, it.file, Parses(good, io, it.file, a.inNew.value))
  }

  /** None of the first `n` turns fails. */
  ghost predicate Quiet(v0: View, listing: seq<string>, n: nat, good: string -> bool, io: Io) {
    n <= |listing| && forall j :: 0 <= j < n ==> !TurnFails(Of(v0, listing[j]), good, io, listing[j])
  }

  /** The turn of this file, by what was in new, leaves both the envelope and the source. */
  predicate TurnPartial(a: FileState, good: string -> bool, io: Io, f: string) {
    && Claimable(a) && !io.stolen(f) && !io.claimFails(f)
    && PartialFor(io, f, Parses(good, io, f, a.inNew.value))
  }

  /** The batch fails exactly at the first turn that fails, with a partial transition exactly when that turn had one. */
  ghost predicate EndsExactly(v0: View, listing: seq<string>, n: nat, good: string -> bool, io: Io, err: Option<Err>) {
    && n <= |listing|
    && (err.None? ==> Quiet(v0, listing, n, good, io))
    && (err.Some? ==>
          && n > 0 && Quiet(v0, listing, n - 1, good, io)
          && TurnFails(Of(v0, listing[n - 1]), good, io, listing[n - 1])
          && (IsPartial(err) <==> TurnPartial(Of(v0, listing[n - 1]), good, io, listing[n - 1])))
  }

  lemma EndsStep(v0: View, listing: seq<string>, n: nat, good: string -> bool, io: Io, err: Option<Err>)
    requires n < |listing| && EndsExactly(v0, listing, n, good, io, None)
    requires err.Some? <==> TurnFails(Of(v0, listing[n]), good, io, listing[n])
    requires err.Some? ==> (IsPartial(err) <==> TurnPartial(Of(v0, listing[n]), good, io, listing[n]))
    ensures EndsExactly(v0, listing, n + 1, good, io, err)
  {
    hide Of, TurnFails, TurnPartial;
  }

  lemma EndsStart(v0: View, listing: seq<string>, good: string -> bool, io: Io)
    ensures EndsExactly(v0, listing, 0, good, io, None)
  {
  }

  lemma ItemsExactStep(v0: View, good: string -> bool, io: Io, items: seq<Item>, it: Option<Item>)
    requires ItemsExact(v0, good, io, items)
    requires it.Some? ==> ItemExact(Of(v0, it.value.file), good, io, it.value)
    ensures ItemsExact(v0, good, io, Add(items, it))
  {
    hide Of, ItemExact;
  }

  /** If no turn fails, the batch does not. */
  lemma QuietEnds(v0: View, listing: seq<string>, n: nat, good: string -> bool, io: Io, err: Option<Err>)
    requires EndsExactly(v0, listing, n, good, io, err) && Quiet(v0, listing, |listing|, good, io)
    ensures err.None?
  {
    hide Of, TurnFails;
  }

  /** Nothing kept this process from claiming `f`. */
  predicate Winnable(v: View, f: string, io: Io) {
    Claimable(Of(v, f)) && !io.stolen(f) && !io.claimFails(f)
  }

  /** Every file that could be claimed has an item. */
  ghost predicate AllWon(v: View, listing: seq<string>, n: nat, io: Io, items: seq<Item>) {
    n <= |listing| && forall f :: f in listing[..n] && Winnable(v, f, io) ==> f in Files(items)
  }

  lemma AllWonStep(v: View, listing: seq<string>, n: nat, io: Io, items: seq<Item>, it: Option<Item>)
    requires n < |listing| && Distinct(listing) && AllWon(v, listing, n, io, items)
    requires Winnable(v, listing[n], io) ==> it.Some? && it.value.file == listing[n]
    ensures AllWon(v, listing, n + 1, io, Add(items, it))
  {
    hide Winnable, Files;
    ReachedNext(listing, n);
    forall f | f in listing[..n + 1] && Winnable(v, f, io) ensures f in Files(Add(items, it)) {
      FilesOfAdd(items, it, f);
    }
  }

  lemma NoItems(v: View, good: string -> bool, io: Io)
    ensures ItemsExact(v, good, io, [])
  {
  }

  lemma NothingWon(v: View, listing: seq<string>, io: Io)
    ensures AllWon(v, listing, 0, io, []) && Files([]) == []
  {
    assert listing[..0] == [];
  }

  lemma Untouched(v0: View, v: View, listing: seq<string>, n: nat, items: seq<Item>)
    requires n < |listing| && Distinct(listing) && Batch(v0, v, listing, n, items, None)
    ensures Of(v, listing[n]) == Of(v0, listing[n])
  {
    hide Of;
    ReachedNext(listing, n);
  }

  /** Wrapping the error of a batch for output changes nothing that was said about its items. */
  lemma SameVerdict(v0: View, v: View, listing: seq<string>, n: nat, items: seq<Item>, a: Option<Err>, b: Option<Err>)
    requires Batch(v0, v, listing, n, items, a)
    requires a.Some? == b.Some? && (a.Some? ==> a.value.partial == b.value.partial)
    ensures Batch(v0, v, listing, n, items, b)
  {
    hide Of, OthersSkipped, OnePerFile, NoneLeft;
  }

  lemma BatchStart(v: View, listing: seq<string>)
    ensures Batch(v, v, listing, 0, [], None)
  {
    hide Of;
    assert listing[..0] == [];
  }

  /** The message is somewhere, in one place only, with the bytes it was delivered with. */
  predicate InOnePlace(a: FileState, b: FileState) {
    && a.inNew.Some? && Copies(a, b) == 1
    && (b.inNew.Some? ==> b.inNew == a.inNew) && (b.inCur.Some? ==> b.inCur == a.inNew)
    && (|b.dead| > |a.dead| ==> b.dead == a.dead + [a.inNew.value])
  }

  /**
   After any batch every message that was only in new is in exactly one of new, cur and the DLQ; the one
   exception is the last item of a batch that failed with a partial transition, reported as moved nowhere.
   */
  lemma BatchConserves(v0: View, v: View, listing: seq<string>, n: nat, items: seq<Item>, err: Option<Err>, f: string)
    requires Batch(v0, v, listing, n, items, err) && Claimable(Of(v0, f))
    ensures || InOnePlace(Of(v0, f), Of(v, f))
            || (&& IsPartial(err) && |items| > 0
                && items[|items| - 1] == items[|items| - 1].(file := f, movedToCur := false, movedToDlq := false)
                && Of(v, f).inCur == Of(v0, f).inNew && Of(v, f).dead == Of(v0, f).dead + [Of(v0, f).inNew.value])
  {
    hide Of;
    if f in Files(items) {
      var k :| 0 <= k < |items| && Files(items)[k] == f;
      assert Settled(Of(v0, f), Of(v, f), items[k], err);
    }
  }

  /** A drained message is in cur, a corrupt one in the DLQ, each with its receipt attempted. */
  function Drained1(a: FileState, parses: bool): FileState
    requires a.inNew.Some?
  {
    if parses then FileState(None, a.inNew, a.dead, a.receipts + [Drained])
    else FileState(None, None, a.dead + [a.inNew.value], a.receipts + [DeadLettered])
  }

  lemma SmoothIsQuiet(v: View, listing: seq<string>, good: string -> bool, io: Io)
    requires forall f :: f in listing ==> Claimable(Of(v, f)) && Smooth(io, f)
    ensures Quiet(v, listing, |listing|, good, io)
  {
    hide Of, TurnFails, Smooth;
    forall j | 0 <= j < |listing| ensures !TurnFails(Of(v, listing[j]), good, io, listing[j]) {
      assert listing[j] in listing;
      SmoothTurn(Of(v, listing[j]), good, io, listing[j]);
    }
  }

  /** When nothing goes wrong, every listed message ends where it belongs, with its receipt, and has its item. */
  lemma SmoothDrain(v0: View, v: View, listing: seq<string>, good: string -> bool, io: Io, items: seq<Item>, f: string)
    requires forall g :: g in listing ==> Claimable(Of(v0, g)) && Smooth(io, g)
    requires Batch(v0, v, listing, |listing|, items, None) && AllWon(v0, listing, |listing|, io, items)
    requires ItemsExact(v0, good, io, items) && f in listing
    ensures f in Files(items) && Of(v, f) == Drained1(Of(v0, f), good(Of(v0, f).inNew.value))
  {
    hide Of, Smooth;
    SmoothTurn(Of(v0, f), good, io, f);
    assert listing[..|listing|] == listing;
    assert Winnable(v0, f, io) by { SmoothWins(v0, f, io); }
    var k :| 0 <= k < |items| && Files(items)[k] == f;
    assert items[k].file == f && ItemExact(Of(v0, f), good, io, items[k]);
    assert Settled(Of(v0, f), Of(v, f), items[k], None);
  }

  lemma SmoothWins(v: View, f: string, io: Io)
    requires Claimable(Of(v, f)) && Smooth(io, f)
    ensures Winnable(v, f, io)
  {
    hide Of;
  }

  /** `SortByTimestamp`: its comparison mixes two keys and need not be transitive, so only the contents are known. */
  type Sorter = seq<Item> -> seq<Item>

  ghost predicate Permutes(order: Sorter) {
    forall s: seq<Item> :: multiset(order(s)) == multiset(s)
  }

  /** The same items, in whatever order. */
  predicate SameItems(a: seq<Item>, b: seq<Item>) {
    multiset(a) == multiset(b)
  }

  /** The claims of the batch, in order. */
  predicate ClaimedFor(before: seq<string>, after: seq<string>, items: seq<Item>) {
    after == before + Files(items)
  }

  /** The output grew by the items. */
  predicate Printed(before: seq<Item>, after: seq<Item>, items: seq<Item>) {
    after == before + items
  }

  /** What `collectInboxFilenames` returns: the message files of new, in order. */
  ghost predicate IsListing(listing: seq<string>, box: map<string, string>) {
    && (forall i, j :: 0 <= i < j < |listing| ==> Less(listing[i], listing[j]))
    && (forall f :: f in listing <==> f in box && IsMessageName(f))
  }

  lemma ListingDistinct(listing: seq<string>, box: map<string, string>)
    requires IsListing(listing, box)
    ensures Distinct(listing)
  {
    forall i, j | 0 <= i < j < |listing| ensures listing[i] != listing[j] {
      assert Less(listing[i], listing[j]);
      LessIrreflexive(listing[i]);
    }
  }

  class Mailbox {
    var newBox: map<string, string>
    var curBox: map<string, string>
    var dlq: seq<(string, string)>
    var receipts: seq<(string, Stage)>
    var printed: seq<Item>
    ghost var claims: seq<string>   // claims won by this process, in order

    ghost function Now(): View
      reads this
    {
      View(newBox, curBox, dlq, receipts)
    }

    lemma LookupIn(box: map<string, string>, f: string)
      ensures f in box <==> Lookup(box, f).Some?
      ensures f in box ==> Lookup(box, f) == Some(box[f])
      ensures At(f).inNew == Lookup(newBox, f) && At(f).inCur == Lookup(curBox, f)
    {
    }

    ghost function At(f: string): FileState
      reads this
    {
      Of(Now(), f)
    }

    /** `MoveNewToCur`: an atomic rename that never replaces a retained file. */
    method Claim(f: string, io: Io) returns (err: Option<Err>)
      modifies this`newBox, this`curBox, this`claims
      ensures OthersSame(old(Now()), Now(), f)
      ensures var won := err.None? || err.value.committed.Some?;
              && (won <==> !io.claimFails(f) && Claimable(old(At(f))))
              && At(f) == (if won then Claimed(old(At(f))) else old(At(f)))
              && claims == old(claims) + (if won then [f] else [])
      ensures err.Some? ==> !err.value.partial && (err.value.committed.Some? ==> err.value.committed == Some(AtCur))
      ensures err.Some? && err.value.notExist <==> !io.claimFails(f) && old(At(f)).inNew.None?
      ensures !io.claimFails(f) && Claimable(old(At(f))) ==> (err.Some? <==> io.claimUnsynced(f))
    {
      if io.claimFails(f) {
        return Some(PLAIN);
      }
      if f !in newBox {
        return Some(Err(false, None, true));
      }
      if f in curBox {
        return Some(PLAIN);  // collision: both copies survive
      }
      curBox := curBox[f := newBox[f]];
      newBox := newBox - {f};
      claims := claims + [f];
      err := if io.claimUnsynced(f) then Some(Err(false, Some(AtCur), false)) else None;
    }

    /** `moveInboxMessageToDLQ` from cur: envelope first, then the source. */
    method MoveCurToDlq(f: string, io: Io) returns (path: bool, err: Option<Err>)
      modifies this`curBox, this`dlq
      ensures OthersSame(old(Now()), Now(), f)
      ensures path ==> old(At(f)).inCur.Some?
      ensures At(f) == if !path then old(At(f)) else old(At(f)).(
                         dead := old(At(f)).dead + [old(At(f)).inCur.value],
                         inCur := if IsPartial(err) then old(At(f)).inCur else None)
      ensures !path ==> err == Some(PLAIN)
      ensures path && err.Some? && !err.value.partial ==> err.value.committed == Some(AtDlq)
      ensures path <==> old(At(f)).inCur.Some? && Publishes(io, f)
      ensures IsPartial(err) <==> path && !MovesOn(io, f)
      ensures err.None? <==> path && Settles(io, f, false)
    {
      if f !in curBox || io.dlqPrepareFails(f) || io.deliver(f).NotDelivered? {
        return false, Some(PLAIN);
      }
      Bury(f);
      if io.deliver(f).DeliveredUnsynced? {
        return true, Some(Err(true, Some(AtDlq), false));
      }
      if io.removeFails(f) {
        return true, Some(Err(true, None, false));
      }
      curBox := curBox - {f};
      return true, if io.removeUnsynced(f) then Some(Err(false, Some(AtDlq), false)) else None;
    }

    /** Publish the envelope holding the bytes in cur. */
    method Bury(f: string)
      requires f in curBox
      modifies this`dlq
      ensures OthersSame(old(Now()), Now(), f)
      ensures At(f) == old(At(f)).(dead := old(At(f)).dead + [curBox[f]])
    {
      ghost var before := dlq;
      dlq := dlq + [(f, curBox[f])];
      forall g ensures OfFile(dlq, g) == OfFile(before, g) + if f == g then [curBox[f]] else [] {
        LogAppend(before, f, curBox[f], g);
      }
    }

    /** `moveClaimedCurToDLQ`: the same after a claim whose durability may be in doubt. */
    method MoveClaimedToDlq(f: string, io: Io, claimErr: Option<Err>) returns (path: bool, err: Option<Err>)
      requires claimErr.Some? ==> !claimErr.value.partial && claimErr.value.committed == Some(AtCur)
      modifies this`curBox, this`dlq
      ensures OthersSame(old(Now()), Now(), f)
      ensures path ==> old(At(f)).inCur.Some?
      ensures At(f) == if !path then old(At(f)) else old(At(f)).(
                         dead := old(At(f)).dead + [old(At(f)).inCur.value],
                         inCur := if IsPartial(err) then old(At(f)).inCur else None)
      ensures !path ==> err.Some? && !err.value.partial
      ensures !path ==> err.value.committed == if claimErr.Some? then Some(AtCur) else None
      ensures path && err.Some? && !err.value.partial ==> err.value.committed == Some(AtDlq)
      ensures path <==> old(At(f)).inCur.Some? && Publishes(io, f)
      ensures IsPartial(err) <==> path && !MovesOn(io, f)
      ensures err.None? <==> path && Settles(io, f, claimErr.Some?)
    {
      hide Of;
      path, err := MoveCurToDlq(f, io);
      if claimErr.Some? {
        if err.Some? && (err.value.partial || !path || err.value.committed.None?) {
          err := Some(Both(claimErr.value, err.value));
        } else {
          // resync both sides of the original rename
          err := if io.resyncFails(f) then Some(Err(false, Some(AtDlq), false)) else None;
        }
      }
    }

    method EmitReceipt(f: string, stage: Stage)
      modifies this`receipts
      ensures OthersSame(old(Now()), Now(), f)
      ensures At(f) == old(At(f)).(receipts := old(At(f)).receipts + [stage])
    {
      ghost var before := receipts;
      receipts := receipts + [(f, stage)];
      forall g ensures OfFile(receipts, g) == OfFile(before, g) + if f == g then [stage] else [] {
        LogAppend(before, f, stage, g);
      }
    }

    /** Another consumer may win the file before this process tries, and dead-letter it at once. */
    method Interfere(f: string, io: Io)
      modifies this`newBox, this`curBox, this`dlq
      ensures OthersSame(old(Now()), Now(), f) && Skipped(old(At(f)), At(f))
      ensures io.stolen(f) && Claimable(old(At(f))) ==> Taken(old(At(f)), At(f)) && At(f).inNew.None?
      ensures !io.stolen(f) ==> At(f) == old(At(f))
    {
      if io.stolen(f) && f in newBox && f !in curBox {
        ghost var v0 := Now();
        curBox := curBox[f := newBox[f]];
        newBox := newBox - {f};
        ghost var v1 := Now();
        assert OthersSame(v0, v1, f) && Of(v1, f) == Claimed(Of(v0, f));
        if io.stolenTo(f).AtDlq? {
          Bury(f);
          ghost var v2 := Now();
          OthersCompose(v0, v1, v2, f);
          curBox := curBox - {f};
          assert OthersSame(v2, Now(), f);
          OthersCompose(v0, v2, Now(), f);
        }
      }
    }

    // ---- drain ----

    /** What the loop does with a claimed file that cannot be parsed. */
    method DeadLetter(f: string, io: Io, claimErr: Option<Err>, ghost start: FileState)
      returns (it: Item, err: Option<Err>)
      requires claimErr.Some? ==> !claimErr.value.partial && claimErr.value.committed == Some(AtCur)
      requires Claimable(start) && At(f) == Claimed(start)
      modifies this`curBox, this`dlq, this`receipts
      ensures OthersSame(old(Now()), Now(), f)
      ensures it.file == f && !it.movedToCur && Settled(start, At(f), it, err)
      ensures it == Item(f, true, false, MovesOn(io, f))
      ensures err.None? <==> Settles(io, f, claimErr.Some?)
      ensures IsPartial(err) <==> Publishes(io, f) && !MovesOn(io, f)
    {
      hide Of;
      var path;
      path, err := MoveClaimedToDlq(f, io, claimErr);
      if err.None? || (!err.value.partial && path && err.value.committed.Some?) {
        ghost var mid := Now();
        EmitReceipt(f, DeadLettered);
        OthersCompose(old(Now()), mid, Now(), f);
        it := Item(f, true, false, true);
      } else {
        it := Item(f, true, false, false);
      }
    }

    /** The rest of a turn, once the claim is won. */
    method Process(f: string, good: string -> bool, io: Io, claimErr: Option<Err>, ghost start: FileState)
      returns (it: Item, err: Option<Err>)
      requires claimErr.Some? ==> !claimErr.value.partial && claimErr.value.committed == Some(AtCur)
      requires Claimable(start) && At(f) == Claimed(start)
      modifies this`curBox, this`dlq, this`receipts
      ensures OthersSame(old(Now()), Now(), f)
      ensures it.file == f && Settled(start, At(f), it, err)
      ensures it.movedToCur <==> !io.hookFails(f) && !io.unreadable(f) && good(start.inNew.value)
      ensures it.movedToCur ==> err == claimErr
      ensures io.hookFails(f) ==>
                err.Some? && err.value.committed == if claimErr.Some? then claimErr.value.committed else None
      ensures claimErr.Some? == io.claimUnsynced(f) ==>
                && it == ItemFor(io, f, Parses(good, io, f, start.inNew.value))
                && (err.Some? <==> FailsFor(io, f, Parses(good, io, f, start.inNew.value)))
                && (IsPartial(err) <==> PartialFor(io, f, Parses(good, io, f, start.inNew.value)))
    {
      assert f in curBox && curBox[f] == start.inNew.value;
      hide Of;
      if io.hookFails(f) {
        it, err := Item(f, true, false, false), Some(if claimErr.Some? then Both(claimErr.value, PLAIN) else PLAIN);
      } else if io.unreadable(f) || !good(curBox[f]) {
        it, err := DeadLetter(f, io, claimErr, start);
      } else {
        EmitReceipt(f, Drained);
        it, err := Item(f, false, true, false), claimErr;
      }
    }

    /** One turn of the drain loop: an item exactly when the claim was won. */
    method DrainOne(f: string, good: string -> bool, io: Io) returns (it: Option<Item>, err: Option<Err>)
      modifies this`newBox, this`curBox, this`dlq, this`receipts, this`claims
      ensures OthersSame(old(Now()), Now(), f)
      ensures claims == old(claims) + (if it.Some? then [f] else [])
      ensures it.Some? ==> it.value.file == f
      ensures Outcome(old(At(f)), At(f), it, err)
      ensures it.Some? <==> Claimable(old(At(f))) && !io.stolen(f) && !io.claimFails(f)
      ensures it.Some? && it.value.movedToCur ==> good(old(At(f)).inNew.value)
      ensures it.None? && err.None? ==> At(f).inNew.None?
      ensures it.None? && At(f).inNew.None? && !io.claimFails(f) && io.dirs(f).DirsExist? ==> err.None?
      ensures it.Some? ==> it.value == ItemFor(io, f, Parses(good, io, f, old(At(f)).inNew.value))
      ensures err.Some? <==> TurnFails(old(At(f)), good, io, f)
      ensures IsPartial(err) <==> TurnPartial(old(At(f)), good, io, f)
    {
      hide Of;
      ghost var start := At(f);
      Interfere(f, io);
      ghost var v1 := Now();
      var claimErr := Claim(f, io);
      OthersCompose(old(Now()), v1, Now(), f);
      if claimErr.Some? && claimErr.value.committed.None? {
        if claimErr.value.notExist && io.dirs(f).DirsExist? {
          return None, None;
        }
        return None, Some(PLAIN);
      }
      ghost var v2 := Now();
      var item;
      item, err := Process(f, good, io, claimErr, start);
      OthersCompose(old(Now()), v2, Now(), f);
      it := Some(item);
    }

    /** The loop of `drainInboxItemsPinned`: the items in the order of their claims, and how many files were tried. */
    method Collect(listing: seq<string>, limit: nat, good: string -> bool, io: Io)
      returns (items: seq<Item>, err: Option<Err>, ghost reached: nat)
      requires Distinct(listing)
      modifies this`newBox, this`curBox, this`dlq, this`receipts, this`claims
      ensures claims == old(claims) + Files(items)
      ensures Batch(old(Now()), Now(), listing, reached, items, err)
      ensures AllWon(old(Now()), listing, reached, io, items)
      ensures limit > 0 ==> |items| <= limit
      ensures err.None? && reached < |listing| ==> limit > 0 && |items| == limit
      ensures ItemsExact(old(Now()), good, io, items) && EndsExactly(old(Now()), listing, reached, good, io, err)
      ensures reached <= |listing|
    {
      hide Of, Files, Settled, Skipped, Outcome, Batch, AllWon, ItemsExact, EndsExactly, TurnFails, TurnPartial,
           ItemFor, Parses;
      ghost var v0 := Now();
      BatchStart(v0, listing);
      items, err := [], None;
      NothingWon(v0, listing, io);
      EndsStart(v0, listing, good, io);
      assert ItemsExact(v0, good, io, []) by { NoItems(v0, good, io); }
      var i := 0;
      while i < |listing| && err.None? && !(limit > 0 && |items| >= limit)
        invariant i <= |listing| && claims == old(claims) + Files(items)
        invariant Batch(v0, Now(), listing, i, items, err)
        invariant limit > 0 ==> |items| <= limit
        invariant AllWon(v0, listing, i, io, items)
        invariant ItemsExact(v0, good, io, items) && EndsExactly(v0, listing, i, good, io, err)
      {
        ghost var v, before := Now(), items;
        Untouched(v0, v, listing, i, items);
        var it;
        it, err := DrainOne(listing[i], good, io);
        BatchStep(v0, v, Now(), listing, i, before, it, err);
        AllWonStep(v0, listing, i, io, before, it);
        AddClaims(old(claims), before, it);
        ItemsExactStep(v0, good, io, before, it);
        EndsStep(v0, listing, i, good, io, err);
        items := Add(items, it);
        i := i + 1;
      }
      reached := i;
    }

    /** `drainInboxItemsPinned`: the items are those of the loop, in display order. */
    method Drain(listing: seq<string>, limit: nat, good: string -> bool, io: Io, order: Sorter)
      returns (items: seq<Item>, err: Option<Err>, ghost collected: seq<Item>, ghost reached: nat)
      requires IsListing(listing, newBox) && Permutes(order)
      modifies this`newBox, this`curBox, this`dlq, this`receipts, this`claims
      ensures SameItems(items, collected)
      ensures ClaimedFor(old(claims), claims, collected)
      ensures Batch(old(Now()), Now(), listing, reached, collected, err)
      ensures AllWon(old(Now()), listing, reached, io, collected)
      ensures limit > 0 ==> |items| <= limit
      ensures err.None? && reached < |listing| ==> limit > 0 && |items| == limit
      ensures ItemsExact(old(Now()), good, io, collected)
      ensures EndsExactly(old(Now()), listing, reached, good, io, err)
      ensures Quiet(old(Now()), listing, |listing|, good, io) ==> err.None? && (limit == 0 ==> reached == |listing|)
    {
      hide Of, Files, Batch, AllWon, IsListing, ItemsExact, EndsExactly, Quiet;
      ListingDistinct(listing, newBox);
      items, err, reached := Collect(listing, limit, good, io);
      collected := items;
      items := order(items);
      assert |items| == |multiset(items)| == |collected|;
      if Quiet(old(Now()), listing, |listing|, good, io) { QuietEnds(old(Now()), listing, reached, good, io, err); }
    }

    /** `finishDrainBatch`: whatever was claimed is printed before any error is returned. */
    method FinishDrain(items: seq<Item>, drainErr: Option<Err>, json: bool, outputFails: bool)
      returns (err: Option<Err>)
      modifies this`printed
      ensures !outputFails ==> Printed(old(printed), printed, items) && (err.Some? <==> drainErr.Some?)
      ensures outputFails && (items != [] || json) ==> err.Some?
      ensures drainErr.Some? ==> err.Some? && err.value.partial == drainErr.value.partial
                                 && err.value.committed == drainErr.value.committed
    {
      if items != [] {
        if outputFails {
          return if drainErr.Some? then Some(Both(drainErr.value, PLAIN)) else Some(PLAIN);
        }
        printed := printed + items;
      }
      return if drainErr.None? && items == [] && json && outputFails then Some(PLAIN) else drainErr;
    }

    /** `runDrain` from the listing on: every claim of this run has its one item on the output, error or not. */
    method RunDrain(listing: seq<string>, limit: nat, good: string -> bool, io: Io, order: Sorter, json: bool,
        outputFails: bool)
      returns (err: Option<Err>, ghost shown: seq<Item>, ghost collected: seq<Item>, ghost reached: nat)
      requires IsListing(listing, newBox) && Permutes(order)
      modifies this`newBox, this`curBox, this`dlq, this`receipts, this`claims, this`printed
      ensures ClaimedFor(old(claims), claims, collected)
      ensures SameItems(shown, collected)
      ensures if outputFails then shown != [] ==> err.Some? else Printed(old(printed), printed, shown)
      ensures !outputFails ==> Batch(old(Now()), Now(), listing, reached, collected, err)
      ensures limit > 0 ==> |shown| <= limit
      ensures ItemsExact(old(Now()), good, io, collected)
      ensures Quiet(old(Now()), listing, |listing|, good, io) ==>
                (outputFails || err.None?) && (limit == 0 ==> reached == |listing|)
    {
      hide ItemsExact, EndsExactly, Quiet, Of, Files, AllWon, IsListing, Batch, SameItems, ClaimedFor, Printed,
           Permutes;
      var items, drainErr;
      items, drainErr, collected, reached := Drain(listing, limit, good, io, order);
      shown := items;
      ghost var v := Now();
      err := FinishDrain(items, drainErr, json, outputFails);
      assert Now() == v;
      if !outputFails { SameVerdict(old(Now()), v, listing, reached, collected, drainErr, err); }
    }

    // ---- read ----

    /** `MoveToDLQ`: claim, then the dead-letter move. */
    method MoveNewToDlq(f: string, io: Io) returns (path: bool, err: Option<Err>, ghost won: bool)
      modifies this`newBox, this`curBox, this`dlq, this`claims
      ensures OthersSame(old(Now()), Now(), f)
      ensures claims == old(claims) + (if won then [f] else [])
      ensures won <==> !io.claimFails(f) && Claimable(old(At(f)))
      ensures !won ==> At(f) == old(At(f)) && !path && err.Some? && !err.value.partial && err.value.committed.None?
      ensures won ==> At(f) == if !path then Claimed(old(At(f))) else Claimed(old(At(f))).(
                         dead := old(At(f)).dead + [old(At(f)).inNew.value],
                         inCur := if IsPartial(err) then old(At(f)).inNew else None)
      ensures won && !path ==>
                err.Some? && !err.value.partial && (err.value.committed.Some? ==> err.value.committed == Some(AtCur))
      ensures path && err.Some? && !err.value.partial ==> err.value.committed == Some(AtDlq)
      ensures path <==> won && Publishes(io, f)
      ensures IsPartial(err) <==> path && !MovesOn(io, f)
      ensures err.None? <==> won && Settles(io, f, io.claimUnsynced(f))
    {
      hide Of;
      var claimErr := Claim(f, io);
      won := claimErr.None? || claimErr.value.committed.Some?;
      if claimErr.Some? && claimErr.value.committed.None? {
        return false, claimErr, won;
      }
      ghost var mid := Now();
      path, err := MoveClaimedToDlq(f, io, claimErr);
      OthersCompose(old(Now()), mid, Now(), f);
    }

    /**
     `moveReadFailureToDLQ`.  It always has an item to show: none of its early returns without one can happen.
     MovedToDLQ is set exactly when the envelope is visible and the source is gone.
     */
    method ReadFailure(f: string, io: Io) returns (it: Option<Item>, err: Option<Err>, ghost won: bool)
      modifies this`newBox, this`curBox, this`dlq, this`receipts, this`claims
      ensures OthersSame(old(Now()), Now(), f)
      ensures claims == old(claims) + (if won then [f] else [])
      ensures won <==> !io.claimFails(f) && Claimable(old(At(f)))
      ensures it.Some? && it.value.file == f && !it.value.movedToCur
      ensures if won then Settled(old(At(f)), At(f), it.value, err)
              else At(f) == old(At(f)) && !it.value.movedToDlq && err.Some?
      ensures it == Some(Item(f, true, false, won && MovesOn(io, f)))
      ensures err.None? <==> won && Settles(io, f, io.claimUnsynced(f))
    {
      hide Of;
      var path;
      path, err, won := MoveNewToDlq(f, io);
      var item := Item(f, true, false, false);
      if err.Some? && err.value.partial {
        return if path then Some(item) else None, err, won;
      }
      if !path {
        if err.None? || (err.value.committed.Some? && err.value.committed != Some(AtCur)) {
          return None, err, won;
        }
        return Some(item), err, won;
      }
      if err.Some? && err.value.committed.None? {
        return None, err, won;
      }
      ghost var mid := Now();
      EmitReceipt(f, DeadLettered);
      OthersCompose(old(Now()), mid, Now(), f);
      it := Some(item.(movedToDlq := true));
    }

    /**
     `runRead` from the lookup on; another consumer may take the file before it is parsed (`early`) or before
     it is claimed.  Only a won claim changes anything.  Unlike drain, a reader that loses the race fails.
     */
    method Read(f: string, good: string -> bool, io: Io, early: bool)
      returns (body: Option<string>, it: Option<Item>, err: Option<Err>, ghost won: bool)
      modifies this`newBox, this`curBox, this`dlq, this`receipts, this`claims
      ensures OthersSame(old(Now()), Now(), f)
      ensures claims == old(claims) + (if won then [f] else [])
      ensures won <==> Claimable(old(At(f))) && !io.stolen(f) && !io.claimFails(f)
      ensures it.Some? ==> it.value.file == f && body.None? && err.Some? && (it.value.movedToDlq ==> won)
      ensures won ==> (body.Some? <==> !io.unreadable(f) && good(old(At(f)).inNew.value)) && (body.None? ==> it.Some?)
      ensures won ==> Settled(old(At(f)), At(f), if body.Some? then Item(f, false, true, false) else it.value, err)
      ensures !won ==> Skipped(old(At(f)), At(f))
      ensures !won && old(At(f)).inNew.Some? ==> body.None? && err.Some?
      ensures body.Some? ==> body == if won then old(At(f)).inNew else old(At(f)).inCur
      ensures it.Some? ==> it.value == Item(f, true, false, won && MovesOn(io, f))
      ensures won ==> (err.None? <==> Parses(good, io, f, old(At(f)).inNew.value) && !io.claimUnsynced(f))
      ensures old(At(f)).inNew.None? ==>
                && (err.None? <==> body.Some?)
                && (body.Some? <==> old(At(f)).inCur.Some? && Parses(good, io, f, old(At(f)).inCur.value))
    {
      hide Of;
      var isNew := f in newBox;
      assert isNew <==> At(f).inNew.Some? by { LookupIn(newBox, f); }
      if !isNew {
        won := false;
        assert f in curBox <==> At(f).inCur.Some? by { LookupIn(curBox, f); }
        if f !in curBox {
          return None, None, Some(Err(false, None, true)), false;
        }
        assert Some(curBox[f]) == At(f).inCur by { LookupIn(curBox, f); }
        if io.unreadable(f) || !good(curBox[f]) {
          return None, None, Some(PLAIN), false;
        }
        return Some(curBox[f]), None, None, false;
      }
      assert newBox[f] == At(f).inNew.value by { LookupIn(newBox, f); }
      var text := newBox[f];
      ghost var start := Now();
      if early { Interfere(f, io); }
      ghost var v1 := Now();
      assert f in newBox <==> At(f).inNew.Some? by { LookupIn(newBox, f); }
      if f !in newBox || io.unreadable(f) || !good(text) {
        if !early { Interfere(f, io); }
        ghost var v2 := Now();
        OthersCompose(start, v1, v2, f);
        it, err, won := ReadFailure(f, io);
        OthersCompose(start, v2, Now(), f);
        // the parse error is joined in front of the transition error
        return None, it, Some(if err.Some? then Both(PLAIN, err.value) else PLAIN), won;
      }
      if !early { Interfere(f, io); }
      ghost var v2 := Now();
      OthersCompose(start, v1, v2, f);
      var claimErr := Claim(f, io);
      ghost var v3 := Now();
      OthersCompose(start, v2, v3, f);
      won := claimErr.None? || claimErr.value.committed.Some?;
      if claimErr.Some? && claimErr.value.committed.None? {
        return None, None, claimErr, won;
      }
      EmitReceipt(f, Drained);
      OthersCompose(start, v3, Now(), f);
      return Some(text), None, claimErr, won;
    }
  }
}
