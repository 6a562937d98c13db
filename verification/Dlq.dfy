/**
 Dead-letter maintenance: `dlq purge` against directories that other processes keep
 changing, and the scans behind `dlq list` and `dlq retry --all`, in which the copy in
 cur always stands for the message.
 */
module Dlq {
  import opened Text
  import opened BridgeEnvelope

  // ---- purge ----

  /** A file's identity (device and inode) and its bytes. */
  datatype File = File(id: nat, data: string)

  type Dir = map<string, File>

  datatype Candidate = Candidate(path: string, id: nat, digest: string)

  /**
   What the outside does: `others` gives the directory as the k-th access finds it, `age` is the failure time
   in an envelope, if it can be parsed, and `fails` makes a removal fail.
   */
  datatype Outside = Outside(sha: Sha, others: (nat, Dir) -> Dir, age: string -> Option<int>, fails: string -> bool)

  ghost predicate Undisturbed(o: Outside) {
    forall k, d :: o.others(k, d) == d
  }

  /** Old enough, or no age asked for. */
  predicate Due(o: Outside, cutoff: Option<int>, data: string) {
    cutoff.None? || (o.age(data).Some? && o.age(data).value <= cutoff.value)
  }

  /** The file at the path still is the one selected: same identity, same digest. */
  predicate StillSelected(o: Outside, d: Dir, c: Candidate) {
    c.path in d && d[c.path].id == c.id && o.sha(d[c.path].data) == c.digest
  }

  /** What was seen when a candidate was selected. */
  datatype Seen = Seen(path: string, file: File)

  predicate SelectedFrom(o: Outside, c: Candidate, s: Seen) {
    c == Candidate(s.path, s.file.id, o.sha(s.file.data))
  }

  ghost predicate AllSelectedFrom(o: Outside, cs: seq<Candidate>, seen: seq<Seen>) {
    |cs| == |seen| && forall k :: 0 <= k < |cs| ==> SelectedFrom(o, cs[k], seen[k])
  }

  /** Every deletion is of a selected file, unchanged since it was seen. */
  ghost predicate Justified(o: Outside, deleted: seq<Seen>, seen: seq<Seen>) {
    forall i :: 0 <= i < |deleted| ==> SeenBefore(o, deleted[i], seen)
  }

  ghost predicate SeenBefore(o: Outside, d: Seen, seen: seq<Seen>) {
    exists k :: 0 <= k < |seen| && seen[k].path == d.path && seen[k].file.id == d.file.id
                && o.sha(seen[k].file.data) == o.sha(d.file.data)
  }

  /** The paths a purge of an undisturbed directory is to remove. */
  function DuePaths(o: Outside, d: Dir, cutoff: Option<int>, paths: seq<string>): set<string> {
    set p | p in paths && p in d && Due(o, cutoff, d[p].data)
  }

  function Paths(cs: seq<Candidate>): set<string> {
    set c | c in cs :: c.path
  }

  class Purge {
    var files: Dir
    var accesses: nat

    /** Whatever other processes did since the last access. */
    method Look(o: Outside)
      modifies this
      ensures files == o.others(old(accesses), old(files)) && accesses == old(accesses) + 1
    {
      files := o.others(accesses, files);
      accesses := accesses + 1;
    }

    /** `selectDLQPurgeCandidate`: stat, read, and read again for the age; each may find something else. */
    method Select(path: string, o: Outside, cutoff: Option<int>)
      returns (c: Option<Candidate>, ok: bool, ghost seen: Seen)
      modifies this
      ensures c.Some? ==> ok && SelectedFrom(o, c.value, seen) && seen.path == path
      ensures c.Some? <==> path in files && Due(o, cutoff, files[path].data)
      ensures ok <==> path in files && (cutoff.None? || o.age(files[path].data).Some?)
      ensures Undisturbed(o) ==> files == old(files)
      ensures Undisturbed(o) && c.Some? ==> seen.file == files[path]
    {
      seen := Seen(path, File(0, ""));
      Look(o);
      if path !in files {
        return None, false, seen;
      }
      var id := files[path].id;
      Look(o);
      if path !in files {
        return None, false, seen;
      }
      var candidate := Candidate(path, id, o.sha(files[path].data));
      seen := Seen(path, File(id, files[path].data));
      if cutoff.None? {
        return Some(candidate), true, seen;
      }
      Look(o);
      if path !in files || o.age(files[path].data).None? {
        return None, false, seen;
      }
      return if o.age(files[path].data).value <= cutoff.value then Some(candidate) else None, true, seen;
    }

    /** `removeSelectedDLQPurgeCandidate`: under the envelope's lock, compare before removing. */
    method Remove(c: Candidate, o: Outside) returns (removed: bool, ok: bool, ghost found: Dir)
      modifies this
      ensures found == o.others(old(accesses), old(files))
      ensures removed <==> StillSelected(o, found, c) && !o.fails(c.path)
      ensures files == if removed then found - {c.path} else found
      ensures !ok <==> StillSelected(o, found, c) && o.fails(c.path)
    {
      Look(o);
      found := files;
      if c.path !in files {
        return false, true, found;  // gone: not counted and not an error
      }
      if files[c.path].id != c.id || o.sha(files[c.path].data) != c.digest {
        return false, true, found;
      }
      if o.fails(c.path) {
        return false, false, found;
      }
      files := files - {c.path};
      removed, ok := true, true;
    }

    /** The selection loop over both listings. */
    method SelectAll(paths: seq<string>, o: Outside, cutoff: Option<int>)
      returns (cs: seq<Candidate>, ok: bool, ghost seen: seq<Seen>)
      requires Distinct(paths)
      modifies this
      ensures AllSelectedFrom(o, cs, seen)
      ensures Undisturbed(o) ==> files == old(files) && Exact(o, files, cutoff, paths, cs)
      ensures Undisturbed(o) ==> (ok <==> AllReadable(o, files, cutoff, paths))
    {
      hide Exact, AllReadable, AllSelectedFrom, Undisturbed, Due;
      cs, ok, seen := [], true, [];
      ghost var d := files;
      assert paths[..0] == [];
      NothingSelected(o, d, cutoff);
      for i := 0 to |paths|
        invariant AllSelectedFrom(o, cs, seen)
        invariant Undisturbed(o) ==> files == d && Exact(o, d, cutoff, paths[..i], cs)
        invariant Undisturbed(o) ==> (ok <==> AllReadable(o, d, cutoff, paths[..i]))
      {
        var c, good;
        ghost var s;
        c, good, s := Select(paths[i], o, cutoff);
        ok := ok && good;
        assert paths[..i + 1] == paths[..i] + [paths[i]];
        if c.Some? { SelectedFromMore(o, cs, seen, c.value, s); }
        if Undisturbed(o) {
          ExactMore(o, d, cutoff, paths[..i], paths[i], cs, c);
          ReadableMore(o, d, cutoff, paths[..i], paths[i]);
        }
        if c.Some? {
          cs, seen := cs + [c.value], seen + [s];
        }
      }
      assert paths[..|paths|] == paths;
    }

    /**
     `runDLQPurge`.  Whatever others do meanwhile, only files still equal to what was selected are deleted,
     and the count is the number of deletions; undisturbed, exactly the due files go whose removal works, and the
     run succeeds exactly when all files could be judged and no due one failed to go.
     */
    method Run(paths: seq<string>, o: Outside, cutoff: Option<int>)
      returns (removed: nat, ok: bool, ghost deleted: seq<Seen>, ghost seen: seq<Seen>)
      requires Distinct(paths)
      modifies this
      ensures removed == |deleted| && Justified(o, deleted, seen)
      ensures Undisturbed(o) ==>
                && files == old(files) - Removable(o, DuePaths(o, old(files), cutoff, paths))
                && removed == |Removable(o, DuePaths(o, old(files), cutoff, paths))|
                && (ok <==> && AllReadable(o, old(files), cutoff, paths)
                            && forall p :: p in DuePaths(o, old(files), cutoff, paths) ==> !o.fails(p))
    {
      hide AllReadable, AllSelectedFrom, Undisturbed, Due, Justified, Purged, StillSelected, DuePaths, Paths, Removable;
      var cs;
      ghost var d := files;
      cs, ok, seen := SelectAll(paths, o, cutoff);
      ghost var selectedAll := ok;
      removed, deleted := 0, [];
      NothingPurged(o, d, cs, seen);
      for i := 0 to |cs|
        invariant removed == |deleted| && Justified(o, deleted, seen)
        invariant Undisturbed(o) ==> Purged(o, d, files, cs, i, removed)
        invariant Undisturbed(o) ==> (ok <==> selectedAll && NoneFails(o, cs, i))
      {
        var gone, fine;
        ghost var found;
        ghost var before, k := files, accesses;
        gone, fine, found := Remove(cs[i], o);
        ok := ok && fine;
        if Undisturbed(o) {
          NothingDisturbed(o, k, before);
          assert StillSelected(o, d, cs[i]);
          PurgedMore(o, d, before, cs, i, removed);
        }
        if gone {
          removed := removed + 1;
          DeletionJustified(o, cs, seen, i, found, deleted);
          deleted := deleted + [Seen(cs[i].path, found[cs[i].path])];
        }
      }
      assert cs[..|cs|] == cs;
      if Undisturbed(o) {
        PurgedAll(o, d, files, cs, removed);
      }
    }
  }

  predicate DistinctPaths(cs: seq<Candidate>) {
    forall i, j :: 0 <= i < j < |cs| ==> cs[i].path != cs[j].path
  }

  lemma PathsOneMore(cs: seq<Candidate>, c: Candidate)
    ensures Paths(cs + [c]) == Paths(cs) + {c.path}
  {
    assert forall x :: x in cs + [c] <==> x in cs || x == c;
    assert c in cs + [c];
    forall p | p in Paths(cs) + {c.path} ensures p in Paths(cs + [c]) {
      if p != c.path {
        var x :| x in cs && x.path == p;
        assert x in cs + [c];
      }
    }
  }

  lemma NotYetRemoved(cs: seq<Candidate>, i: nat)
    requires i < |cs| && DistinctPaths(cs)
    ensures cs[i].path !in Paths(cs[..i])
  {
  }

  /** The candidates are exactly the due files of the directory, one each. */
  ghost predicate Exact(o: Outside, d: Dir, cutoff: Option<int>, paths: seq<string>, cs: seq<Candidate>) {
    && Paths(cs) == DuePaths(o, d, cutoff, paths) && DistinctPaths(cs)
    && (forall k :: 0 <= k < |cs| ==> StillSelected(o, d, cs[k]))
  }

  ghost predicate AllReadable(o: Outside, d: Dir, cutoff: Option<int>, paths: seq<string>) {
    forall p :: p in paths ==> p in d && (cutoff.None? || o.age(d[p].data).Some?)
  }

  lemma NothingDisturbed(o: Outside, k: nat, d: Dir)
    requires Undisturbed(o)
    ensures o.others(k, d) == d
  {
  }

  lemma NothingSelected(o: Outside, d: Dir, cutoff: Option<int>)
    ensures Exact(o, d, cutoff, [], []) && AllReadable(o, d, cutoff, []) && AllSelectedFrom(o, [], [])
  {
  }

  lemma SelectedFromMore(o: Outside, cs: seq<Candidate>, seen: seq<Seen>, c: Candidate, s: Seen)
    requires AllSelectedFrom(o, cs, seen) && SelectedFrom(o, c, s)
    ensures AllSelectedFrom(o, cs + [c], seen + [s])
  {
  }

  lemma ReadableMore(o: Outside, d: Dir, cutoff: Option<int>, paths: seq<string>, p: string)
    ensures AllReadable(o, d, cutoff, paths + [p]) <==>
            AllReadable(o, d, cutoff, paths) && p in d && (cutoff.None? || o.age(d[p].data).Some?)
  {
    assert p in paths + [p];
  }

  lemma ExactMore(o: Outside, d: Dir, cutoff: Option<int>, paths: seq<string>, p: string, cs: seq<Candidate>,
      c: Option<Candidate>)
    requires Exact(o, d, cutoff, paths, cs) && p !in paths
    requires c.Some? <==> p in d && Due(o, cutoff, d[p].data)
    requires c.Some? ==> c.value == Candidate(p, d[p].id, o.sha(d[p].data))
    ensures Exact(o, d, cutoff, paths + [p], if c.Some? then cs + [c.value] else cs)
  {
    hide Due;
    assert DuePaths(o, d, cutoff, paths + [p]) == DuePaths(o, d, cutoff, paths) + if c.Some? then {p} else {};
    if c.Some? {
      PathsOneMore(cs, c.value);
      forall k | 0 <= k < |cs| ensures cs[k].path != p {
        assert cs[k].path in Paths(cs);
      }
    }
  }

  /** The paths among these whose removal works. */
  function Removable(o: Outside, paths: set<string>): set<string> {
    set p | p in paths && !o.fails(p)
  }

  predicate NoneFails(o: Outside, cs: seq<Candidate>, n: nat)
    requires n <= |cs|
  {
    forall k :: 0 <= k < n ==> !o.fails(cs[k].path)
  }

  /** Of the first `n` candidates those are gone whose removal works, and nothing else is. */
  ghost predicate Purged(o: Outside, d: Dir, files: Dir, cs: seq<Candidate>, n: nat, removed: nat) {
    && n <= |cs| && files == d - Removable(o, Paths(cs[..n])) && removed == |Removable(o, Paths(cs[..n]))|
  }

  lemma NothingPurged(o: Outside, d: Dir, cs: seq<Candidate>, seen: seq<Seen>)
    ensures Purged(o, d, d, cs, 0, 0) && NoneFails(o, cs, 0) && Justified(o, [], seen)
  {
    assert cs[..0] == [] && Paths([]) == {};
  }

  lemma RemoveOneMore(d: Dir, gone: set<string>, p: string)
    requires p in d && p !in gone
    ensures p in d - gone && (d - gone)[p] == d[p] && d - (gone + {p}) == (d - gone) - {p} && |gone + {p}| == |gone| + 1
  {
  }

  lemma PurgedMore(o: Outside, d: Dir, files: Dir, cs: seq<Candidate>, n: nat, removed: nat)
    requires n < |cs| && DistinctPaths(cs) && Purged(o, d, files, cs, n, removed) && StillSelected(o, d, cs[n])
    ensures StillSelected(o, files, cs[n])
    ensures if o.fails(cs[n].path) then Purged(o, d, files, cs, n + 1, removed)
            else Purged(o, d, files - {cs[n].path}, cs, n + 1, removed + 1)
  {
    var p, before := cs[n].path, Paths(cs[..n]);
    assert Paths(cs[..n + 1]) == before + {p} by {
      assert cs[..n + 1] == cs[..n] + [cs[n]];
      PathsOneMore(cs[..n], cs[n]);
    }
    assert p !in before by { NotYetRemoved(cs, n); }
    hide Paths, DistinctPaths, Removable, StillSelected;
    RemovableMore(o, before, p);
    StillThere(o, d, before, cs[n]);
    RemoveOneMore(d, Removable(o, before), p);
  }

  lemma StillThere(o: Outside, d: Dir, before: set<string>, c: Candidate)
    requires StillSelected(o, d, c) && c.path !in before
    ensures StillSelected(o, d - Removable(o, before), c) && c.path in d
  {
  }

  lemma RemovableMore(o: Outside, paths: set<string>, p: string)
    requires p !in paths
    ensures p !in Removable(o, paths)
    ensures o.fails(p) ==> Removable(o, paths + {p}) == Removable(o, paths)
    ensures !o.fails(p) ==> Removable(o, paths + {p}) == Removable(o, paths) + {p}
  {
  }

  lemma PurgedAll(o: Outside, d: Dir, files: Dir, cs: seq<Candidate>, removed: nat)
    requires Purged(o, d, files, cs, |cs|, removed)
    ensures files == d - Removable(o, Paths(cs)) && removed == |Removable(o, Paths(cs))|
    ensures NoneFails(o, cs, |cs|) <==> forall p :: p in Paths(cs) ==> !o.fails(p)
  {
    assert cs[..|cs|] == cs;
    if forall p :: p in Paths(cs) ==> !o.fails(p) {
      forall k | 0 <= k < |cs| ensures !o.fails(cs[k].path) { assert cs[k].path in Paths(cs); }
    }
  }

  lemma DeletionJustified(o: Outside, cs: seq<Candidate>, seen: seq<Seen>, i: nat, found: Dir, deleted: seq<Seen>)
    requires AllSelectedFrom(o, cs, seen) && i < |cs| && StillSelected(o, found, cs[i]) && Justified(o, deleted, seen)
    ensures cs[i].path in found && Justified(o, deleted + [Seen(cs[i].path, found[cs[i].path])], seen)
  {
    var s := Seen(cs[i].path, found[cs[i].path]);
    assert SelectedFrom(o, cs[i], seen[i]);
    assert SeenBefore(o, s, seen);
  }

  // ---- scans of the two boxes ----

  datatype Box = Cur | New

  datatype DirEntry = DirEntry(name: string, isDir: bool)

  datatype Scan = Missing | Unreadable | Listed(entries: seq<DirEntry>)

  predicate Visible(e: DirEntry) {
    !e.isDir && (e.name == "" || e.name[0] != '.')
  }

  /** The file names a scan shows. */
  function Names(scan: Scan): set<string> {
    if scan.Listed? then set e | e in scan.entries && Visible(e) :: e.name else {}
  }

  /** A scan shows exactly the plain entries whose names do not start with a dot. */
  lemma NamesExactly(scan: Scan, name: string)
    ensures name in Names(scan) <==>
            && scan.Listed? && DirEntry(name, false) in scan.entries && (name == "" || name[0] != '.')
  {
    if scan.Listed? && DirEntry(name, false) in scan.entries && (name == "" || name[0] != '.') {
      assert Visible(DirEntry(name, false));
    }
  }

  /** A name and the box whose copy stands for it. */
  datatype Pick = Pick(name: string, box: Box)

  /** The copy in cur stands for the name whenever there is one. */
  function Authority(cur: Scan, name: string): Box {
    if name in Names(cur) then Cur else New
  }

  function PickedNames(picks: seq<Pick>): set<string> {
    set p | p in picks :: p.name
  }

  predicate OncePerName(picks: seq<Pick>) {
    forall i, j :: 0 <= i < j < |picks| ==> picks[i].name != picks[j].name
  }

  lemma PickedMore(picks: seq<Pick>, p: Pick)
    ensures PickedNames(picks + [p]) == PickedNames(picks) + {p.name}
  {
    assert forall x :: x in picks + [p] <==> x in picks || x == p;
    forall n | n in PickedNames(picks) + {p.name} ensures n in PickedNames(picks + [p]) {
      if n == p.name {
        assert p in picks + [p];
      } else {
        var x :| x in picks && x.name == n;
        assert x in picks + [p];
      }
    }
  }

  lemma NamesMore(entries: seq<DirEntry>, k: nat)
    requires k < |entries|
    ensures Names(Listed(entries[..k + 1]))
            == Names(Listed(entries[..k])) + (if Visible(entries[k]) then {entries[k].name} else {})
  {
    assert entries[..k + 1] == entries[..k] + [entries[k]];
    assert forall x :: x in entries[..k + 1] <==> x in entries[..k] || x == entries[k];
    forall n | n in Names(Listed(entries[..k])) ensures n in Names(Listed(entries[..k + 1])) {
      var x :| x in entries[..k] && Visible(x) && x.name == n;
      assert x in entries[..k + 1];
    }
  }

  /** One box added to a scan: every name not yet seen, once. */
  method AddBox(scan: Scan, box: Box, seen: set<string>, picks: seq<Pick>) returns (all: set<string>, more: seq<Pick>)
    requires seen == PickedNames(picks) && OncePerName(picks)
    ensures all == PickedNames(more) == seen + Names(scan)
    ensures OncePerName(more) && picks <= more
    ensures forall p :: p in more && p !in picks ==> p.box == box && p.name !in seen
  {
    all, more := seen, picks;
    if scan.Listed? {
      hide Visible;
      for k := 0 to |scan.entries|
        invariant all == PickedNames(more) == seen + Names(Listed(scan.entries[..k]))
        invariant OncePerName(more) && picks <= more
        invariant forall p :: p in more && p !in picks ==> p.box == box && p.name !in seen
      {
        var e := scan.entries[k];
        NamesMore(scan.entries, k);
        if Visible(e) && e.name !in all {
          PickedMore(more, Pick(e.name, box));
          forall i | 0 <= i < |more| ensures more[i].name != e.name {
            assert more[i] in more;
          }
          all, more := all + {e.name}, more + [Pick(e.name, box)];
        }
      }
      assert scan.entries[..|scan.entries|] == scan.entries;
    }
  }

  /** Both boxes, cur first: each visible name once, standing for the copy in cur if there is one. */
  method ScanBoth(cur: Scan, inNew: Scan) returns (picks: seq<Pick>)
    ensures OncePerName(picks) && PickedNames(picks) == Names(cur) + Names(inNew)
    ensures forall p :: p in picks ==> p.box == Authority(cur, p.name)
  {
    var seen;
    seen, picks := AddBox(cur, Cur, {}, []);
    var first := picks;
    forall p | p in first ensures p.box == Authority(cur, p.name) {
      assert p.name in PickedNames(first);
    }
    seen, picks := AddBox(inNew, New, seen, picks);
  }

  datatype Outcome = Retried | CommittedUnsynced | AlreadyDelivered | Refused

  datatype Verdicts = Verdicts(retried: seq<string>, already: seq<string>, skipped: seq<string>)

  /** `strings.TrimSuffix(name, ".md")`. */
  function IdOf(name: string): string {
    if |name| >= 3 && name[|name| - 3..] == ".md" then name[..|name| - 3] else name
  }

  /** The id reported is the name without its ending, or the whole name if it has another one. */
  lemma IdStrips(name: string, id: string)
    ensures IdOf(id + ".md") == id
    ensures (forall x :: name != x + ".md") ==> IdOf(name) == name
  {
    if |name| >= 3 && name[|name| - 3..] == ".md" {
      assert name == name[..|name| - 3] + ".md";
    }
  }

  /** The picks with one of the given outcomes, in order. */
  function Chosen(picks: seq<Pick>, retry: string -> Outcome, outcomes: set<Outcome>): seq<string> {
    if picks == [] then []
    else
      var k := |picks| - 1;
      Chosen(picks[..k], retry, outcomes) + if retry(picks[k].name) in outcomes then [picks[k].name] else []
  }

  function Ids(names: seq<string>): (r: seq<string>)
    ensures |r| == |names|
  {
    seq(|names|, i requires 0 <= i < |names| => IdOf(names[i]))
  }

  /** A list holds exactly the attempts with its outcomes. */
  lemma {:induction false} ChosenExactly(picks: seq<Pick>, retry: string -> Outcome, outcomes: set<Outcome>)
    ensures forall n :: n in Chosen(picks, retry, outcomes) <==> n in PickedNames(picks) && retry(n) in outcomes
  {
    if picks != [] {
      var k := |picks| - 1;
      ChosenExactly(picks[..k], retry, outcomes);
      assert picks == picks[..k] + [picks[k]];
      PickedMore(picks[..k], picks[k]);
      hide PickedNames;
    }
  }

  /** The three lists together are as long as the list of attempts: with `ChosenExactly`, a partition. */
  lemma {:induction false} ChosenSizes(picks: seq<Pick>, retry: string -> Outcome)
    ensures |Chosen(picks, retry, {Retried, CommittedUnsynced})| + |Chosen(picks, retry, {AlreadyDelivered})|
            + |Chosen(picks, retry, {Refused})| == |picks|
  {
    if picks != [] {
      var o := retry(picks[|picks| - 1].name);
      ChosenSizes(picks[..|picks| - 1], retry);
      assert o in {Retried, CommittedUnsynced} <==> o.Retried? || o.CommittedUnsynced?;
      assert o in {AlreadyDelivered} <==> o.AlreadyDelivered?;
      assert o in {Refused} <==> o.Refused?;
    }
  }

  /**
   `retryAllDLQ`: one attempt per visible name, every attempt in one list.  It succeeds when both boxes could
   be scanned (a missing one counts as empty) and every attempt was retried or had been delivered before.
   */
  method RetryAll(cur: Scan, inNew: Scan, retry: string -> Outcome)
    returns (lists: Verdicts, ok: bool, ghost picks: seq<Pick>)
    ensures OncePerName(picks) && PickedNames(picks) == Names(cur) + Names(inNew)
    ensures forall p :: p in picks ==> p.box == Authority(cur, p.name)
    ensures lists.retried == Ids(Chosen(picks, retry, {Retried, CommittedUnsynced}))
    ensures lists.already == Ids(Chosen(picks, retry, {AlreadyDelivered}))
    ensures lists.skipped == Chosen(picks, retry, {Refused})
    ensures |lists.retried| + |lists.already| + |lists.skipped| == |picks|
    ensures ok <==> && !cur.Unreadable? && !inNew.Unreadable?
                    && forall n :: n in Names(cur) + Names(inNew) ==> retry(n).Retried? || retry(n).AlreadyDelivered?
  {
    hide Names, Authority, OncePerName, Chosen;
    var todo := ScanBoth(cur, inNew);
    picks := todo;
    var fine;
    lists, fine := Attempt(todo, retry);
    ok := !cur.Unreadable? && !inNew.Unreadable? && fine;
    ChosenSizes(todo, retry);
    hide Ids;
    assert forall n :: n in Names(cur) + Names(inNew) <==> n in PickedNames(todo);
  }

  predicate Fine(o: Outcome) {
    o.Retried? || o.AlreadyDelivered?
  }

  /** The loop over the candidates. */
  method Attempt(todo: seq<Pick>, retry: string -> Outcome) returns (lists: Verdicts, ok: bool)
    ensures lists.retried == Ids(Chosen(todo, retry, {Retried, CommittedUnsynced}))
    ensures lists.already == Ids(Chosen(todo, retry, {AlreadyDelivered}))
    ensures lists.skipped == Chosen(todo, retry, {Refused})
    ensures ok <==> forall n :: n in PickedNames(todo) ==> Fine(retry(n))
  {
    lists, ok := Verdicts([], [], []), true;
    for k := 0 to |todo|
      invariant lists.retried == Ids(Chosen(todo[..k], retry, {Retried, CommittedUnsynced}))
      invariant lists.already == Ids(Chosen(todo[..k], retry, {AlreadyDelivered}))
      invariant lists.skipped == Chosen(todo[..k], retry, {Refused})
      invariant ok <==> forall j :: 0 <= j < k ==> Fine(retry(todo[j].name))
    {
      var name := todo[k].name;
      ChosenMore(todo, k, retry, {Retried, CommittedUnsynced});
      ChosenMore(todo, k, retry, {AlreadyDelivered});
      ChosenMore(todo, k, retry, {Refused});
      ok := ok && Fine(retry(name));
      match retry(name) {
        case Retried => lists := lists.(retried := lists.retried + [IdOf(name)]);
        case CommittedUnsynced => lists := lists.(retried := lists.retried + [IdOf(name)]);
        case AlreadyDelivered => lists := lists.(already := lists.already + [IdOf(name)]);
        case Refused => lists := lists.(skipped := lists.skipped + [name]);
      }
    }
    assert todo[..|todo|] == todo;
    forall j | 0 <= j < |todo| ensures todo[j].name in PickedNames(todo) { assert todo[j] in todo; }
  }

  lemma ChosenMore(picks: seq<Pick>, k: nat, retry: string -> Outcome, outcomes: set<Outcome>)
    requires k < |picks|
    ensures Chosen(picks[..k + 1], retry, outcomes)
            == Chosen(picks[..k], retry, outcomes) + if retry(picks[k].name) in outcomes then [picks[k].name] else []
    ensures Ids(Chosen(picks[..k + 1], retry, outcomes))
            == Ids(Chosen(picks[..k], retry, outcomes))
               + if retry(picks[k].name) in outcomes then [IdOf(picks[k].name)] else []
  {
    assert picks[..k + 1][..k] == picks[..k] && picks[..k + 1][k] == picks[k];
  }

  /**
   `collectDLQListItemsWithPrecedence` for the combined view: a name is listed exactly when the copy that
   stands for it can be parsed; a corrupt copy in cur hides the one in new.
   */
  method ListBoth(cur: Scan, inNew: Scan, parses: (Box, string) -> bool) returns (items: Option<seq<Pick>>)
    ensures items.Some? <==> cur.Listed? && inNew.Listed?
    ensures items.Some? ==> OncePerName(items.value)
    ensures items.Some? ==> forall n, b :: Pick(n, b) in items.value <==>
              n in Names(cur) + Names(inNew) && b == Authority(cur, n) && parses(b, n)
  {
    if !cur.Listed? || !inNew.Listed? {
      return None;
    }
    var picks := ScanBoth(cur, inNew);
    hide Names, Authority;
    var shown: seq<Pick> := [];
    for k := 0 to |picks|
      invariant OncePerName(shown)
      invariant forall p :: p in shown <==> p in picks[..k] && parses(p.box, p.name)
    {
      assert picks[..k + 1] == picks[..k] + [picks[k]];
      if parses(picks[k].box, picks[k].name) {
        forall i | 0 <= i < |shown| ensures shown[i].name != picks[k].name {
          assert shown[i] in picks[..k];
        }
        shown := shown + [picks[k]];
      }
    }
    assert picks[..|picks|] == picks;
    forall n, b
      ensures Pick(n, b) in shown <==> n in Names(cur) + Names(inNew) && b == Authority(cur, n) && parses(b, n)
    {
      if n in PickedNames(picks) {
        var p :| p in picks && p.name == n;
        assert p == Pick(n, Authority(cur, n));
      }
    }
    items := Some(shown);
  }
}
