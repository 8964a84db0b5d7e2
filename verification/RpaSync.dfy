/**
  Bringing the index of reusable payment addresses up to date: the height range of the index as storage
  keeps it (src/Storage.cpp), and the check that decides what to download again (src/Controller.cpp).
*/
module RpaSync {
  import opened Extremes

  /** The heights from lo to hi. */
  ghost function Range(lo: int, hi: int): (r: set<nat>)
    ensures forall h: nat :: h in r <==> lo <= h <= hi
    decreases hi - lo
  {
    if lo > hi || hi < 0 then {} else Range(lo, hi - 1) + {hi}
  }

  function Above(hs: set<nat>, height: int): set<nat> {
    set h | h in hs && h > height
  }

  function Below(hs: set<nat>, height: int): set<nat> {
    set h | h in hs && h < height
  }

  /** The heights of hs that no gap separates from its lowest one. */
  ghost predicate FirstStretch(hs: set<nat>, kept: set<nat>) {
    forall h: nat :: h in kept <==> h in hs && Unbroken(hs, h)
  }

  ghost predicate Unbroken(hs: set<nat>, h: nat) {
    forall x: nat, y: nat :: x in hs && x <= y <= h ==> y in hs
  }

  // ----- src/Storage.cpp

  /** The index: `db` has the heights with data, first and last are what storage believes the range to be. */
  class RpaStorage {
    var db: set<nat>
    var firstHeight: int
    var lastHeight: int
    var needsFullCheck: bool

    constructor ()
      ensures Valid() && Exact() && db == {} && !needsFullCheck
    {
      db, firstHeight, lastHeight, needsFullCheck := {}, -1, -1, false;
    }

    ghost predicate Valid()
      reads this
    {
      && (firstHeight < 0 <==> lastHeight < 0)
      && -1 <= firstHeight && -1 <= lastHeight
      && (lastHeight < 0 ==> db == {})
    }

    /** The data is one range, and storage knows it. */
    ghost predicate Exact()
      reads this
    {
      && firstHeight <= lastHeight
      && (if lastHeight < 0 then db == {} else db == Range(firstHeight, lastHeight))
    }

    /** Where storage is wrong about the data, it has been told to check. */
    ghost predicate Consistent()
      reads this
    {
      Valid() && (needsFullCheck || Exact())
    }

    /** addRpaDataForHeight */
    method AddRpaDataForHeight(height: nat)
      requires Valid()
      modifies this
      ensures Valid() && db == old(db) + {height} && lastHeight == height
      ensures firstHeight == if old(firstHeight) < 0 then height else Min(old(firstHeight), height)
      ensures needsFullCheck == (old(needsFullCheck) || (old(lastHeight) > -1 && old(lastHeight) != height - 1) || old(firstHeight) > height)
    {
      db := db + {height};
      if lastHeight > -1 && lastHeight != height - 1 { needsFullCheck := true; }
      if firstHeight > -1 && firstHeight > height {
        firstHeight := height;
        needsFullCheck := true;
      }
      lastHeight := height;
      if firstHeight < 0 { firstHeight := height; }
    }

    /** A download puts the data in by increasing height; when it breaks off, the index is flagged. */
    method AddRange(from: nat, to: nat, upTo: int)
      requires Valid() && from <= to && from - 1 <= upTo <= to
      modifies this
      ensures Valid() && db == old(db) + Range(from, upTo)
      ensures upTo >= from ==> lastHeight == upTo
      ensures upTo >= from ==> firstHeight == if old(firstHeight) < 0 then from else Min(old(firstHeight), from)
      ensures upTo == to ==>
        needsFullCheck == (old(needsFullCheck) || (old(lastHeight) > -1 && old(lastHeight) != from - 1) || old(firstHeight) > from)
      ensures upTo < to ==> needsFullCheck
    {
      var h := from;
      while h <= upTo
        invariant from <= h <= upTo + 1 && Valid() && db == old(db) + Range(from, h - 1)
        invariant h == from ==> lastHeight == old(lastHeight) && firstHeight == old(firstHeight) && needsFullCheck == old(needsFullCheck)
        invariant h > from ==> lastHeight == h - 1
        invariant h > from ==> firstHeight == if old(firstHeight) < 0 then from else Min(old(firstHeight), from)
        invariant h > from ==>
          needsFullCheck == (old(needsFullCheck) || (old(lastHeight) > -1 && old(lastHeight) != from - 1) || old(firstHeight) > from)
      {
        AddRpaDataForHeight(h);
        h := h + 1;
      }
      if upTo < to { needsFullCheck := true; }
    }

    /** deleteRpaEntriesFromHeight */
    method DeleteFromHeight(height: nat, force: bool)
      requires Valid()
      modifies this`db, this`firstHeight, this`lastHeight
      ensures Valid() && db == old(db) - Above(old(db), height - 1)
      ensures lastHeight == Min(old(lastHeight), height - 1) && firstHeight == Min(old(firstHeight), lastHeight)
    {
      if !force && firstHeight <= -1 { return; }
      db := db - Above(db, height - 1);
      if lastHeight > -1 && lastHeight >= height { lastHeight := if height > 0 then height - 1 else -1; }
      if firstHeight > lastHeight { firstHeight := lastHeight; }
    }

    /** deleteRpaEntriesToHeight */
    method DeleteToHeight(height: nat)
      requires Valid()
      modifies this`db, this`firstHeight, this`lastHeight
      ensures Valid() && db == old(db) - Below(old(db), height + 1)
      ensures lastHeight == old(lastHeight)
      ensures firstHeight == if old(firstHeight) < 0 then old(firstHeight) else Min(Max(old(firstHeight), height + 1), lastHeight)
    {
      if lastHeight <= -1 { return; }
      db := db - Below(db, height + 1);
      if firstHeight > -1 && firstHeight <= height { firstHeight := height + 1; }
      if firstHeight > lastHeight { firstHeight := lastHeight; }
    }

    /** clampRpaEntries */
    method Clamp(from: nat, to: nat)
      requires Valid() && from <= to
      modifies this`db, this`firstHeight, this`lastHeight
      ensures Valid() && db == old(db) * Range(from, to)
      ensures old(Exact()) && old(firstHeight) <= from && to <= old(lastHeight) ==> Exact() && firstHeight == from && lastHeight == to
    {
      if from > 0 { DeleteToHeight(from - 1); }
      DeleteFromHeight(to + 1, false);
      assert db == old(db) * Range(from, to);
      if old(Exact()) && old(firstHeight) <= from && to <= old(lastHeight) {
        assert old(db) * Range(from, to) == Range(from, to);
      }
    }

    /** The slow scan of loadCheckRpaDB: the heights in order, up to the first gap. */
    method Scan() returns (gapAfter: int)
      requires Valid()
      modifies this`firstHeight, this`lastHeight
      ensures gapAfter == -1 || gapAfter == lastHeight >= 0
      ensures Scanned(db, Above(db, lastHeight), firstHeight, lastHeight)
      ensures lastHeight + 1 !in db || lastHeight == -1
      ensures gapAfter == -1 ==> forall h :: h in db ==> h <= lastHeight
    {
      hide Scanned;
      firstHeight, lastHeight, gapAfter := -1, -1, -1;
      var todo := db;
      ScanStart(db);
      while todo != {}
        invariant gapAfter == -1 && Scanned(db, todo, firstHeight, lastHeight)
        decreases |todo|
      {
        ghost var m := Lowest(todo);
        var k :| k in todo && forall x :: x in todo ==> k <= x;
        ScanOne(db, todo, firstHeight, lastHeight, k);
        if firstHeight < 0 { firstHeight := k; }
        if lastHeight > -1 && lastHeight + 1 != k {
          gapAfter := lastHeight;
          return;
        }
        todo := todo - {k};
        lastHeight := k;
      }
      ScanEnd(db, firstHeight, lastHeight);
    }

    /** loadCheckRpaDB, when a full check is wanted.  `intact` says whether every record could be read and
        the first and last belong to the chain. */
    method LoadCheck(tip: nat, intact: bool)
      requires Valid() && forall h :: h in db ==> h <= tip
      modifies this
      ensures Valid() && Exact() && !needsFullCheck
      ensures db <= old(db) && lastHeight <= tip
      ensures !intact ==> lastHeight == -1
      ensures intact ==> FirstStretch(old(db), db)
    {
      ghost var was := db;
      var gapAfter := Scan();
      ScannedStretch(db, firstHeight, lastHeight);
      if firstHeight > -1 && (tip < lastHeight || gapAfter > -1) {
        var delHeight := if gapAfter > -1 then Min(gapAfter, tip) else tip;
        DeleteFromHeight(Max(delHeight, -1) + 1, true);
      }
      assert db == if firstHeight < 0 then {} else Range(firstHeight, lastHeight);
      if !intact {
        DeleteFromHeight(0, true);
        firstHeight, lastHeight := -1, -1;
      }
      needsFullCheck := false;
    }

    /** runRpaSlowCheckIfDBIsPotentiallyInconsistent */
    method RunSlowCheck(cf: nat, tip: nat, intact: bool) returns (ran: bool)
      requires Consistent() && cf <= tip
      modifies this
      ensures Consistent() && ran == old(needsFullCheck) && !needsFullCheck
      ensures !ran ==> db == old(db) && firstHeight == old(firstHeight) && lastHeight == old(lastHeight)
      ensures ran ==> Exact() && db <= old(db) * Range(cf, tip)
      ensures ran && !intact ==> lastHeight == -1
      ensures ran && intact ==> FirstStretch(old(db) * Range(cf, tip), db)
    {
      if !needsFullCheck { return false; }
      Clamp(cf, tip);
      LoadCheck(tip, intact);
      return true;
    }
  }

  // ----- src/Controller.cpp

  datatype Verdict =
    | Skip                                // nothing to do, and nothing to check from now on
    | Retry                               // a slow check was run: ask again
    | Download(from: nat, to: nat)        // these blocks are missing

  /** The heights the index should have, cf to tip, and what is there. */
  datatype Want = Want(cf: nat, tip: nat)

  /** All that is wanted is there, and storage knows. */
  ghost predicate Covers(s: RpaStorage, w: Want)
    reads s
  {
    s.Consistent() && !s.needsFullCheck && 0 <= s.firstHeight <= w.cf && w.tip <= s.lastHeight
  }

  /** One download more at the most: nothing there, or a range that begins where it should. */
  ghost predicate NearlyThere(s: RpaStorage, w: Want)
    reads s
  {
    s.Consistent() && !s.needsFullCheck && (s.lastHeight == -1 || (s.firstHeight == w.cf && s.lastHeight <= w.tip))
  }

  /** ... once the slow check has cut off what is outside and looked again. */
  ghost predicate NearlyThereAfterCheck(s: RpaStorage, w: Want)
    reads s
  {
    s.Consistent() && s.needsFullCheck && exists hi :: w.cf <= hi <= w.tip && s.db * Range(w.cf, w.tip) == Range(w.cf, hi)
  }

  /** How far the index is from being complete. */
  ghost predicate AtMost(s: RpaStorage, w: Want, rank: nat)
    reads s
  {
    match rank
    case 0 => Covers(s, w)
    case 1 => NearlyThere(s, w)
    case 2 => NearlyThereAfterCheck(s, w)
    case 3 => s.Consistent() && !s.needsFullCheck
    case _ => s.Consistent() && s.needsFullCheck
  }

  ghost function DownloadsLeft(rank: nat): nat {
    if rank == 0 then 0 else if rank <= 2 then 1 else 2
  }

  /** What a download asks for is wanted, is not there yet, and is not empty. */
  ghost predicate Missing(db: set<nat>, w: Want, from: nat, to: nat) {
    w.cf <= from <= to <= w.tip && db !! Range(from, to)
  }

  ghost predicate Unmoved(s: RpaStorage, db: set<nat>, first: int, last: int)
    reads s
  {
    s.db == db && s.firstHeight == first && s.lastHeight == last
  }

  /** Just the wanted heights are there, and storage knows. */
  ghost predicate Complete(s: RpaStorage, w: Want)
    reads s
  {
    s.db == Range(w.cf, w.tip) && s.firstHeight == w.cf && s.lastHeight == w.tip && !s.needsFullCheck
  }

  /** A slow check leaves the first gapless stretch of what was wanted, or nothing. */
  ghost predicate Rechecked(s: RpaStorage, db: set<nat>, w: Want, intact: bool)
    reads s
  {
    && s.Consistent() && !s.needsFullCheck && s.db <= db * Range(w.cf, w.tip)
    && (!intact ==> s.lastHeight == -1)
    && (intact ==> FirstStretch(db * Range(w.cf, w.tip), s.db))
  }

  /** The download fills all of the gap at the one end or at the other. */
  ghost predicate Closes(s: RpaStorage, w: Want, from: nat, to: nat)
    reads s
  {
    if s.lastHeight < 0 then from == w.cf && to == w.tip
    else if w.cf < s.firstHeight then from == w.cf && (to == w.tip || to == s.firstHeight - 1)
    else to == w.tip && (from == s.lastHeight + 1 || (from == w.cf && s.lastHeight < w.cf))
  }

  lemma {:induction false} StretchOfRange(lo: nat, hi: nat, kept: set<nat>)
    requires FirstStretch(Range(lo, hi), kept)
    ensures kept == Range(lo, hi)
  {
    forall h: nat ensures h in kept <==> h in Range(lo, hi) {
      if h in Range(lo, hi) { assert Unbroken(Range(lo, hi), h); }
    }
  }

  lemma {:induction false} SameRange(a: int, b: int, c: int, d: int)
    requires 0 <= a <= b && 0 <= c <= d && Range(a, b) == Range(c, d)
    ensures a == c && b == d
  {
    assert a in Range(a, b) && b in Range(a, b) && c in Range(c, d) && d in Range(c, d);
  }

  /** A slow check of an index that needs one download more leaves it so. */
  lemma {:induction false} AfterCheck(s: RpaStorage, db: set<nat>, w: Want, intact: bool, rank: nat)
    requires Rechecked(s, db, w, intact)
    requires rank == 2 ==> exists hi :: w.cf <= hi <= w.tip && db * Range(w.cf, w.tip) == Range(w.cf, hi)
    ensures AtMost(s, w, if rank == 2 then 1 else 3)
  {
    if rank == 2 && intact {
      var hi :| w.cf <= hi <= w.tip && db * Range(w.cf, w.tip) == Range(w.cf, hi);
      StretchOfRange(w.cf, hi, s.db);
      assert w.cf in Range(w.cf, hi);
      SameRange(s.firstHeight, s.lastHeight, w.cf, hi);
    }
  }

  class Controller {
    const storage: RpaStorage
    var skipRpaSanityCheck: bool

    constructor (storage: RpaStorage)
      ensures this.storage == storage && !skipRpaSanityCheck
    {
      this.storage, skipRpaSanityCheck := storage, false;
    }

    /** checkRpaIndexNeedsSync: cf is the configured start height, -1 if the index is disabled. */
    method CheckRpaIndexNeedsSync(cf: int, tipHeight: int, intact: bool) returns (verdict: Verdict)
      requires storage.Consistent()
      modifies this, storage
      ensures storage.Consistent()
      ensures old(skipRpaSanityCheck) || tipHeight < 0 || cf < 0 || cf > tipHeight ==>
        && verdict == Skip && storage.needsFullCheck == old(storage.needsFullCheck)
        && Unmoved(storage, old(storage.db), old(storage.firstHeight), old(storage.lastHeight))
        && skipRpaSanityCheck == (old(skipRpaSanityCheck) || tipHeight >= 0)
      ensures !old(skipRpaSanityCheck) && 0 <= cf <= tipHeight ==>
        && (verdict == Retry <==> old(storage.needsFullCheck)) && !storage.needsFullCheck
        && (verdict == Skip <==> old(Covers(storage, Want(cf, tipHeight))))
        && skipRpaSanityCheck == (verdict == Skip)
        && (verdict == Skip ==> Complete(storage, Want(cf, tipHeight)))
        && (verdict == Retry ==> Rechecked(storage, old(storage.db), Want(cf, tipHeight), intact))
        && (verdict.Download? ==> Unmoved(storage, old(storage.db), old(storage.firstHeight), old(storage.lastHeight)))
        && (verdict.Download? ==> Missing(storage.db, Want(cf, tipHeight), verdict.from, verdict.to))
        && (verdict.Download? ==> Closes(storage, Want(cf, tipHeight), verdict.from, verdict.to))
    {
      if skipRpaSanityCheck || tipHeight < 0 { return Skip; }
      if cf < 0 || cf > tipHeight {
        skipRpaSanityCheck := true;
        return Skip;
      }
      var ran := storage.RunSlowCheck(cf, tipHeight, intact);
      if ran { return Retry; }
      var f, l := storage.firstHeight, storage.lastHeight;
      var noData := f < 0 || l < 0;
      if noData { return Download(cf, tipHeight); }
      if cf < f { return Download(cf, Min(f - 1, tipHeight)); }
      if l < tipHeight { return Download(Max(cf, l + 1), tipHeight); }
      if f != cf || l != tipHeight { storage.Clamp(cf, tipHeight); }
      skipRpaSanityCheck := true;
      return Skip;
    }

    /** The controller's download of the missing blocks, when it goes through. */
    method DownloadMissing(w: Want, from: nat, to: nat, ghost rank: nat) returns (ghost rank': nat)
      requires AtMost(storage, w, rank) && !storage.needsFullCheck && rank > 0
      requires Missing(storage.db, w, from, to) && Closes(storage, w, from, to)
      modifies storage
      ensures AtMost(storage, w, rank') && rank' < rank && DownloadsLeft(rank') < DownloadsLeft(rank)
    {
      ghost var db0, f0, l0 := storage.db, storage.firstHeight, storage.lastHeight;
      storage.AddRange(from, to, to);
      rank' := if f0 <= w.cf && (l0 < 0 || l0 == from - 1) then 0 else 2;
      if rank' == 0 {
        assert storage.db == if l0 < 0 then Range(from, to) else Range(f0, to);
      } else {
        ghost var hi := if w.cf < f0 then Min(l0, w.tip) else w.tip;
        if w.tip < f0 { assert storage.db * Range(w.cf, w.tip) == Range(w.cf, w.tip); }
        assert storage.db * Range(w.cf, w.tip) == Range(w.cf, if w.tip < f0 then w.tip else hi);
      }
    }

    /** Checking again and again, with each download that is asked for going through.  `intact` gives the
        verdict on the records at each slow check. */
    method Synchronise(w: Want, intact: nat -> bool) returns (downloads: seq<(nat, nat)>, ghost before: seq<set<nat>>)
      requires storage.Consistent() && !skipRpaSanityCheck && w.cf <= w.tip
      modifies this, storage
      ensures Complete(storage, w) && storage.Consistent() && skipRpaSanityCheck
      ensures |downloads| == |before| <= 2
      ensures forall k :: 0 <= k < |downloads| ==> Missing(before[k], w, downloads[k].0, downloads[k].1)
    {
      hide Range, Missing, Closes, Rechecked;
      downloads, before := [], [];
      ghost var rank: nat := if storage.needsFullCheck then 4 else 3;
      var turn := 0;
      while !skipRpaSanityCheck
        invariant storage.Consistent() && (skipRpaSanityCheck ==> Complete(storage, w))
        invariant !skipRpaSanityCheck ==> AtMost(storage, w, rank)
        invariant |downloads| == |before| && |downloads| + DownloadsLeft(rank) <= 2
        invariant forall k :: 0 <= k < |downloads| ==> Missing(before[k], w, downloads[k].0, downloads[k].1)
        decreases if skipRpaSanityCheck then 0 else rank + 1
      {
        ghost var db0 := storage.db;
        var verdict := CheckRpaIndexNeedsSync(w.cf, w.tip, intact(turn));
        match verdict {
          case Skip =>
          case Retry =>
            AfterCheck(storage, db0, w, intact(turn), rank);
            rank := if rank == 2 then 1 else 3;
          case Download(from, to) =>
            downloads, before := downloads + [(from, to)], before + [storage.db];
            rank := DownloadMissing(w, from, to, rank);
        }
        turn := turn + 1;
      }
    }
  }

  // ----- the slow scan

  /** The heights that are done form one range, from the lowest on. */
  ghost predicate Scanned(db: set<nat>, todo: set<nat>, first: int, last: int) {
    && todo <= db
    && (if last == -1 then first == -1 && todo == db else 0 <= first <= last && db - todo == Range(first, last))
    && (forall h :: h in todo ==> h > last)
  }

  lemma {:induction false} ScanStart(db: set<nat>)
    ensures Scanned(db, db, -1, -1)
  {
  }

  lemma {:induction false} ScanOne(db: set<nat>, todo: set<nat>, first: int, last: int, k: nat)
    requires Scanned(db, todo, first, last) && k in todo && forall x :: x in todo ==> k <= x
    ensures last == -1 || last + 1 == k ==> Scanned(db, todo - {k}, if first < 0 then k else first, k)
    ensures last != -1 && last + 1 != k ==> todo == Above(db, last) && last + 1 !in db && last >= 0 && first >= 0
    ensures last >= -1 && (first < 0 <==> last < 0)
  {
    if last == -1 || last + 1 == k {
      assert db - (todo - {k}) == Range(if first < 0 then k else first, k);
    } else {
      assert last + 1 !in todo;
      forall h | h in db && h > last ensures h in todo { assert h !in Range(first, last); }
    }
  }

  lemma {:induction false} ScanEnd(db: set<nat>, first: int, last: int)
    requires Scanned(db, {}, first, last)
    ensures Scanned(db, Above(db, last), first, last)
    ensures forall h :: h in db ==> h <= last
  {
    forall h | h in db ensures h <= last { if last != -1 { assert h in db - {}; } }
    assert Above(db, last) == {};
  }

  /** Up to the first gap: the stretch that begins with the lowest height. */
  lemma {:induction false} ScannedStretch(db: set<nat>, first: int, last: int)
    requires Scanned(db, Above(db, last), first, last) && (last + 1 !in db || last == -1)
    requires last == -1 ==> db == {}
    ensures FirstStretch(db, db - Above(db, last))
  {
    forall h: nat ensures h in db - Above(db, last) <==> h in db && Unbroken(db, h) {
      if h in db - Above(db, last) {
        forall x: nat, y: nat | x in db && x <= y <= h ensures y in db {
          assert x in Range(first, last) && h in Range(first, last);
          assert y in Range(first, last);
        }
      } else if h in db {
        assert last in Range(first, last) && last in db;
      }
    }
  }
}
