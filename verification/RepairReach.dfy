/** Repeated closure passes that keep seeing the same things: when they settle, and which requests they ever reach. */
module RepairReach {
  import opened Wrappers
  import opened RepairClosure

  // ----- repeated passes that keep seeing the same things -----

  function Again(p: PassInput, n: nat): seq<PassInput> { seq(n, _ => p) }

  lemma AgainLast(w: World, p: PassInput, n: nat)
    requires n > 0
    ensures Passes(w, Again(p, n)) == Pass(Passes(w, Again(p, n - 1)), p)
  {
    assert Again(p, n)[..n - 1] == Again(p, n - 1);
  }

  lemma {:induction false} AgainFirst(w: World, p: PassInput, n: nat)
    ensures Passes(w, Again(p, n + 1)) == Passes(Pass(w, p), Again(p, n))
  {
    AgainLast(w, p, n + 1);
    if n > 0 {
      AgainFirst(w, p, n - 1);
      AgainLast(Pass(w, p), p, n);
    }
  }

  lemma SameFilesSameReceipts(a: World, b: World)
    requires forall id :: FileOf(a, id) == FileOf(b, id)
    ensures a.receipts == b.receipts
  {
    assert a.receipts.Keys == b.receipts.Keys by {
      forall id | id in a.receipts.Keys + b.receipts.Keys ensures id in a.receipts.Keys && id in b.receipts.Keys {
        assert FileOf(a, id) == FileOf(b, id);
      }
    }
    forall id | id in a.receipts ensures a.receipts[id] == b.receipts[id] {
      assert FileOf(a, id) == FileOf(b, id);
    }
  }

  /** How many more visits may change the file: none, one or two. */
  function Left(file: Option<Receipt>, o: Observation): nat {
    if Visit(file, o) == file then 0 else if Visit(Visit(file, o), o) == Visit(file, o) then 1 else 2
  }

  lemma LeftDrops(file: Option<Receipt>, o: Observation)
    ensures Visit(file, o) != file ==> Left(Visit(file, o), o) < Left(file, o)
  {
    VisitsSettle(file, o);
  }

  function TotalLeft(w: World, seen: map<Id, Observation>, listing: seq<Id>): nat {
    if listing == [] then 0
    else
      var id := listing[|listing| - 1];
      TotalLeft(w, seen, listing[..|listing| - 1]) + if id in seen then Left(FileOf(w, id), seen[id]) else 0
  }

  lemma {:induction false} TotalLeftBounded(w: World, seen: map<Id, Observation>, listing: seq<Id>)
    ensures TotalLeft(w, seen, listing) <= 2 * |listing|
  {
    if listing != [] {
      TotalLeftBounded(w, seen, listing[..|listing| - 1]);
    }
  }

  predicate MayMove(w: World, after: World, seen: map<Id, Observation>, id: Id) {
    FileOf(after, id) == FileOf(w, id) || (id in seen && FileOf(after, id) == Visit(FileOf(w, id), seen[id]))
  }

  lemma {:induction false} TotalLeftDrops(w: World, after: World, seen: map<Id, Observation>, listing: seq<Id>)
    requires forall id :: id in listing ==> MayMove(w, after, seen, id)
    ensures TotalLeft(after, seen, listing) <= TotalLeft(w, seen, listing)
    ensures (exists id :: id in listing && FileOf(after, id) != FileOf(w, id))
              ==> TotalLeft(after, seen, listing) < TotalLeft(w, seen, listing)
  {
    if listing != [] {
      var front, last := listing[..|listing| - 1], listing[|listing| - 1];
      assert listing == front + [last];
      TotalLeftDrops(w, after, seen, front);
      assert MayMove(w, after, seen, last);
      if last in seen {
        LeftDrops(FileOf(w, last), seen[last]);
      }
    }
  }

  lemma PassMoves(w: World, p: PassInput)
    requires Distinct(p.listing)
    ensures var after := Pass(w, p);
            after.receipts == w.receipts || TotalLeft(after, p.seen, p.listing) < TotalLeft(w, p.seen, p.listing)
  {
    var after := Pass(w, p);
    PassFrame(w, p);
    forall id | id in p.listing ensures MayMove(w, after, p.seen, id) {
    }
    TotalLeftDrops(w, after, p.seen, p.listing);
    if forall id :: FileOf(after, id) == FileOf(w, id) {
      SameFilesSameReceipts(after, w);
    }
  }

  lemma SameReceiptsSamePass(w: World, v: World, p: PassInput)
    requires Distinct(p.listing) && w.receipts == v.receipts
    ensures Pass(w, p).receipts == Pass(v, p).receipts
  {
    PassFrame(w, p);
    PassFrame(v, p);
    SameCandidates(w, v, p.seen, p.listing);
    forall id ensures FileOf(w, id) == FileOf(v, id) {
    }
    ReachedSame(w, v, Chosen(w, p), p);
    forall id ensures FileOf(Pass(w, p), id) == FileOf(Pass(v, p), id) {
      assert FileOf(w, id) == FileOf(v, id);
    }
    SameFilesSameReceipts(Pass(w, p), Pass(v, p));
  }

  lemma {:induction false} SameCandidates(w: World, v: World, seen: map<Id, Observation>, listing: seq<Id>)
    requires forall id :: id in listing ==> (IsCandidate(w, seen, id) <==> IsCandidate(v, seen, id))
    ensures Candidates(w, seen, listing) == Candidates(v, seen, listing)
  {
    if listing != [] {
      SameCandidates(w, v, seen, listing[..|listing| - 1]);
    }
  }

  lemma {:induction false} SettledOrLower(w: World, p: PassInput, n: nat)
    requires Distinct(p.listing)
    ensures Passes(w, Again(p, n + 1)).receipts == Passes(w, Again(p, n)).receipts
         || TotalLeft(Passes(w, Again(p, n + 1)), p.seen, p.listing) + n + 1 <= TotalLeft(w, p.seen, p.listing)
  {
    AgainLast(w, p, n + 1);
    PassMoves(Passes(w, Again(p, n)), p);
    if n > 0 {
      SettledOrLower(w, p, n - 1);
      AgainLast(w, p, n);
      if Passes(w, Again(p, n)).receipts == Passes(w, Again(p, n - 1)).receipts {
        SameReceiptsSamePass(Passes(w, Again(p, n)), Passes(w, Again(p, n - 1)), p);
      }
    }
  }

  /**
   Under any limit, and whether or not commands raise, no receipt changes after twice as many passes as the listing
   is long.
   */
  lemma LimitedPassesSettle(w: World, p: PassInput, n: nat)
    requires Distinct(p.listing) && n >= 2 * |p.listing|
    ensures Passes(w, Again(p, n + 1)).receipts == Passes(w, Again(p, n)).receipts
  {
    SettledOrLower(w, p, n);
    TotalLeftBounded(w, p.seen, p.listing);
  }

  // ----- which candidates a limited closer ever reaches -----

  /** The candidates listed before position j. */
  function Ahead(w: World, p: PassInput, j: nat): seq<Id>
    requires j <= |p.listing|
  {
    Candidates(w, p.seen, p.listing[..j])
  }

  /** What keeps a candidate's own visit from closing it: nothing justifies it and no repair of it can fully succeed. */
  predicate Sticky(file: Option<Receipt>, o: Observation) {
    !JustifiesClosing(o) && !(file.None? && RepairMayAct(o) && EveryCommandSucceeds(o, o.payload.value))
  }

  /** Its visit raises: it has no receipt yet, its repair may act, and one of the commands overruns. */
  predicate Overruns(file: Option<Receipt>, o: Observation) {
    file.None? && RepairMayAct(o) && RepairRaises(o, o.payload.value)
  }

  predicate StickyIn(w: World, p: PassInput, id: Id) { id in p.seen && Sticky(FileOf(w, id), p.seen[id]) }

  predicate OverrunsIn(w: World, p: PassInput, id: Id) { id in p.seen && Overruns(FileOf(w, id), p.seen[id]) }

  function StickyCount(w: World, p: PassInput, ids: seq<Id>): nat {
    if ids == [] then 0
    else StickyCount(w, p, ids[..|ids| - 1]) + if StickyIn(w, p, ids[|ids| - 1]) then 1 else 0
  }

  predicate Open(file: Option<Receipt>) { file.None? || file.value.status.Blocked? }

  /** An open request closes at its own visit exactly when it is not sticky; sticky and overrunning requests stay so. */
  lemma VisitClosesIff(file: Option<Receipt>, o: Observation)
    requires Open(file)
    ensures Open(Visit(file, o)) <==> Sticky(file, o)
    ensures Sticky(file, o) ==> Sticky(Visit(file, o), o)
    ensures Close(o, file, true).Raised? <==> Overruns(file, o)
    ensures Overruns(file, o) <==> Overruns(Visit(file, o), o)
  {
    ActsIff(o, file, true);
    if file.Some? {
      BlockedClosesIff(o, file.value, true);
    } else if RepairMayAct(o) {
      ActedClosesIff(o, None);
      if RepairRaises(o, o.payload.value) {
        RaisingNeverSucceeds(o, o.payload.value);
      }
    }
  }

  lemma RaisingNeverSucceeds(o: Observation, p: Payload)
    requires RepairRaises(o, p)
    ensures !EveryCommandSucceeds(o, p)
  {
    if r :| r in p.repos && PushRaises(r) {
      assert !CommandsSucceed(r);
    }
  }

  /** One executing pass, seen from one candidate. */
  lemma CandidateAfterPass(w: World, p: PassInput, id: Id)
    requires Distinct(p.listing) && p.execute && IsCandidate(w, p.seen, id)
    ensures var after := Pass(w, p);
            && (IsCandidate(after, p.seen, id) <==> !(id in Visited(w, p) && !StickyIn(w, p, id)))
            && (IsCandidate(after, p.seen, id) ==> (StickyIn(after, p, id) <==> StickyIn(w, p, id)))
            && (OverrunsIn(after, p, id) <==> OverrunsIn(w, p, id))
  {
    PassFrame(w, p);
    var after := Pass(w, p);
    VisitClosesIff(FileOf(w, id), p.seen[id]);
    assert id in after.receipts <==> FileOf(after, id).Some?;
    assert FileOf(after, id) == if id in Visited(w, p) then Visit(FileOf(w, id), p.seen[id]) else FileOf(w, id);
  }

  lemma NoNewCandidates(w: World, p: PassInput, id: Id)
    requires Distinct(p.listing) && IsCandidate(Pass(w, p), p.seen, id)
    ensures IsCandidate(w, p.seen, id)
  {
    PassFrame(w, p);
    assert id in Pass(w, p).receipts <==> FileOf(Pass(w, p), id).Some?;
  }

  /** A pass leaves the sticky candidates of any part of the listing, and takes away exactly the others it visits. */
  lemma {:induction false} PartAfterPass(w: World, p: PassInput, part: seq<Id>)
    requires Distinct(p.listing) && p.execute
    ensures var before, after := Candidates(w, p.seen, part), Candidates(Pass(w, p), p.seen, part);
            && StickyCount(Pass(w, p), p, after) == StickyCount(w, p, before)
            && |after| <= |before|
            && ((exists id :: id in before && id in Visited(w, p) && !StickyIn(w, p, id)) ==> |after| < |before|)
  {
    if part != [] {
      var front, last := part[..|part| - 1], part[|part| - 1];
      PartAfterPass(w, p, front);
      if IsCandidate(w, p.seen, last) {
        CandidateAfterPass(w, p, last);
        CountSnoc(w, p, Candidates(w, p.seen, front), last);
      } else {
        assert Candidates(w, p.seen, part) == Candidates(w, p.seen, front);
      }
      if IsCandidate(Pass(w, p), p.seen, last) {
        NoNewCandidates(w, p, last);
        CountSnoc(Pass(w, p), p, Candidates(Pass(w, p), p.seen, front), last);
      } else {
        assert Candidates(Pass(w, p), p.seen, part) == Candidates(Pass(w, p), p.seen, front);
      }
    }
  }

  lemma CountSnoc(w: World, p: PassInput, ids: seq<Id>, id: Id)
    ensures StickyCount(w, p, ids + [id]) == StickyCount(w, p, ids) + if StickyIn(w, p, id) then 1 else 0
  {
    assert (ids + [id])[..|ids|] == ids;
  }

  ghost predicate NoOverrun(w: World, p: PassInput, ids: seq<Id>) { forall id :: id in ids ==> !OverrunsIn(w, p, id) }

  lemma OverrunsStay(w: World, p: PassInput, part: seq<Id>)
    requires Distinct(p.listing) && p.execute
    ensures NoOverrun(Pass(w, p), p, Candidates(Pass(w, p), p.seen, part))
       <==> NoOverrun(w, p, Candidates(w, p.seen, part))
  {
    var after := Pass(w, p);
    CandidatesQualify(w, p.seen, part);
    CandidatesQualify(after, p.seen, part);
    forall id | IsCandidate(w, p.seen, id)
      ensures OverrunsIn(after, p, id) <==> OverrunsIn(w, p, id)
      ensures OverrunsIn(w, p, id) ==> IsCandidate(after, p.seen, id) {
      CandidateAfterPass(w, p, id);
      assert OverrunsIn(w, p, id) ==> StickyIn(w, p, id) by {
        if OverrunsIn(w, p, id) {
          RaisingNeverSucceeds(p.seen[id], p.seen[id].payload.value);
        }
      }
    }
    forall id | IsCandidate(after, p.seen, id) ensures IsCandidate(w, p.seen, id) {
      NoNewCandidates(w, p, id);
    }
  }

  lemma {:induction false} CandidatesSplit(w: World, seen: map<Id, Observation>, a: seq<Id>, b: seq<Id>)
    ensures Candidates(w, seen, a + b) == Candidates(w, seen, a) + Candidates(w, seen, b)
  {
    if b == [] {
      assert a + b == a;
    } else {
      CandidatesSplit(w, seen, a, b[..|b| - 1]);
      assert (a + b)[..|a + b| - 1] == a + b[..|b| - 1];
    }
  }

  /** The candidates of the whole listing around the one at position j. */
  lemma CandidateAt(w: World, p: PassInput, j: nat)
    requires j < |p.listing| && IsCandidate(w, p.seen, p.listing[j])
    ensures var all, ahead := Candidates(w, p.seen, p.listing), Ahead(w, p, j);
            |ahead| < |all| && all[|ahead|] == p.listing[j] && all[..|ahead|] == ahead
  {
    CandidatesSplit(w, p.seen, p.listing[..j + 1], p.listing[j + 1..]);
    assert p.listing == p.listing[..j + 1] + p.listing[j + 1..];
    assert p.listing[..j + 1][..j] == p.listing[..j];
  }

  /**
   A limited pass visits a candidate exactly when fewer than k candidates stand ahead of it and none of them
   overruns.
   */
  lemma VisitedIff(w: World, p: PassInput, j: nat, k: nat)
    requires Distinct(p.listing) && p.execute && p.limit == Some(k) && k > 0
    requires j < |p.listing| && IsCandidate(w, p.seen, p.listing[j])
    ensures p.listing[j] in Visited(w, p) <==> |Ahead(w, p, j)| < k && NoOverrun(w, p, Ahead(w, p, j))
  {
    CandidateAt(w, p, j);
    CandidatesDistinct(w, p.seen, p.listing);
    CandidatesQualify(w, p.seen, p.listing);
    ReachedAmong(w, Chosen(w, p), p);
    var ahead, ids, all := Ahead(w, p, j), Chosen(w, p), Candidates(w, p.seen, p.listing);
    var i := |ahead|;
    if i < k {
      assert ids[i] == p.listing[j];
      ReachedIff(w, ids, p, i);
      forall x | x in all ensures VisitRaises(w, x, p) <==> OverrunsIn(w, p, x) {
        VisitClosesIff(FileOf(w, x), p.seen[x]);
      }
      forall m | 0 <= m < i ensures ids[m] == ahead[m] {
        assert all[..i][m] == ahead[m];
      }
      if NoOverrun(w, p, ahead) {
        forall m | 0 <= m < i ensures !VisitRaises(w, ids[m], p) {
          assert ahead[m] in ahead;
        }
      } else {
        var x :| x in ahead && OverrunsIn(w, p, x);
        var m :| 0 <= m < i && ahead[m] == x;
        assert VisitRaises(w, ids[m], p);
      }
    } else {
      assert p.listing[j] !in ids;
    }
  }

  /** While a request is not visited, all that matters about the queue ahead of it stays. */
  lemma {:induction false} QueueStays(w: World, p: PassInput, j: nat, n: nat)
    requires Distinct(p.listing) && p.execute && j <= |p.listing|
    ensures var after := Passes(w, Again(p, n));
            && StickyCount(after, p, Ahead(after, p, j)) == StickyCount(w, p, Ahead(w, p, j))
            && (NoOverrun(after, p, Ahead(after, p, j)) <==> NoOverrun(w, p, Ahead(w, p, j)))
  {
    if n > 0 {
      QueueStays(w, p, j, n - 1);
      AgainLast(w, p, n);
      var mid := Passes(w, Again(p, n - 1));
      PartAfterPass(mid, p, p.listing[..j]);
      OverrunsStay(mid, p, p.listing[..j]);
    }
  }

  lemma {:induction false} StickyAtMost(w: World, p: PassInput, ids: seq<Id>)
    ensures StickyCount(w, p, ids) <= |ids|
    ensures (forall id :: id in ids ==> StickyIn(w, p, id)) ==> StickyCount(w, p, ids) == |ids|
  {
    if ids != [] {
      StickyAtMost(w, p, ids[..|ids| - 1]);
    }
  }

  lemma {:induction false} StickyPrefix(w: World, p: PassInput, ids: seq<Id>, k: nat)
    requires k <= |ids|
    ensures StickyCount(w, p, ids[..k]) <= StickyCount(w, p, ids)
  {
    if k < |ids| {
      StickyPrefix(w, p, ids[..|ids| - 1], k);
      assert ids[..|ids| - 1][..k] == ids[..k];
    } else {
      assert ids[..k] == ids;
    }
  }

  /** Without overruns ahead, a pass visits the first k of the candidates ahead when there are as many. */
  lemma FrontIsVisited(w: World, p: PassInput, j: nat, k: nat, i: nat)
    requires Distinct(p.listing) && p.execute && p.limit == Some(k)
    requires j < |p.listing| && IsCandidate(w, p.seen, p.listing[j])
    requires i < k <= |Ahead(w, p, j)| && NoOverrun(w, p, Ahead(w, p, j))
    ensures Ahead(w, p, j)[i] in Visited(w, p)
  {
    var ahead, ids, all := Ahead(w, p, j), Chosen(w, p), Candidates(w, p.seen, p.listing);
    CandidateAt(w, p, j);
    CandidatesDistinct(w, p.seen, p.listing);
    assert ids == all[..k];
    forall m | 0 <= m < k ensures ids[m] == ahead[m] && ids[m] in ahead && IsCandidate(w, p.seen, ids[m]) {
      assert all[..|ahead|][m] == ahead[m];
      assert ids[m] in ids;
    }
    ReachedIff(w, ids, p, i);
    forall m | 0 <= m < i ensures !VisitRaises(w, ids[m], p) {
      VisitClosesIff(FileOf(w, ids[m]), p.seen[ids[m]]);
      assert !OverrunsIn(w, p, ids[m]);
    }
  }

  lemma SomeNotSticky(w: World, p: PassInput, ids: seq<Id>, k: nat) returns (i: nat)
    requires k <= |ids| && StickyCount(w, p, ids) < k
    ensures i < k && !StickyIn(w, p, ids[i])
  {
    StickyPrefix(w, p, ids, k);
    StickyAtMost(w, p, ids[..k]);
    var x :| x in ids[..k] && !StickyIn(w, p, x);
    i :| 0 <= i < k && ids[i] == x;
  }

  /** With fewer than k sticky candidates among k or more ahead, a pass without overruns shortens the queue ahead. */
  lemma QueueShortens(w: World, p: PassInput, j: nat, k: nat)
    requires Distinct(p.listing) && p.execute && p.limit == Some(k) && k > 0
    requires j < |p.listing| && IsCandidate(w, p.seen, p.listing[j])
    requires k <= |Ahead(w, p, j)| && NoOverrun(w, p, Ahead(w, p, j)) && StickyCount(w, p, Ahead(w, p, j)) < k
    ensures |Ahead(Pass(w, p), p, j)| < |Ahead(w, p, j)|
  {
    hide Pass, Visited, StickyIn, NoOverrun, StickyCount;
    var i := SomeNotSticky(w, p, Ahead(w, p, j), k);
    FrontIsVisited(w, p, j, k, i);
    PartAfterPass(w, p, p.listing[..j]);
    assert Ahead(w, p, j)[i] in Ahead(w, p, j);
  }

  /** The pass, counted from w, that first has fewer than k candidates ahead. */
  lemma {:induction false} EventuallyVisited(w: World, p: PassInput, j: nat, k: nat) returns (n: nat)
    requires Distinct(p.listing) && p.execute && p.limit == Some(k) && k > 0
    requires j < |p.listing| && IsCandidate(w, p.seen, p.listing[j])
    requires NoOverrun(w, p, Ahead(w, p, j)) && StickyCount(w, p, Ahead(w, p, j)) < k
    ensures n <= |Ahead(w, p, j)| && p.listing[j] in Visited(Passes(w, Again(p, n)), p)
    decreases |Ahead(w, p, j)|
  {
    VisitedIff(w, p, j, k);
    if |Ahead(w, p, j)| < k {
      n := 0;
      assert Again(p, 0) == [];
    } else {
      var id := p.listing[j];
      CandidateAfterPass(w, p, id);
      QueueShortens(w, p, j, k);
      PartAfterPass(w, p, p.listing[..j]);
      OverrunsStay(w, p, p.listing[..j]);
      var m := EventuallyVisited(Pass(w, p), p, j, k);
      AgainFirst(w, p, m);
      n := m + 1;
    }
  }

  /** Some pass visits the candidate at position j. */
  ghost predicate EverVisited(w: World, p: PassInput, j: nat)
    requires j < |p.listing|
  {
    exists n: nat :: p.listing[j] in Visited(Passes(w, Again(p, n)), p)
  }

  /**
   Passes with limit k that keep seeing the same things ever visit a candidate exactly when fewer than k of the
   candidates ahead of it are sticky and none of them overruns. Otherwise it starves, however often the closer runs.
   */
  lemma LimitedCloserReachesIff(w: World, p: PassInput, j: nat, k: nat)
    requires Distinct(p.listing) && p.execute && p.limit == Some(k) && k > 0
    requires j < |p.listing| && IsCandidate(w, p.seen, p.listing[j])
    ensures EverVisited(w, p, j) <==> StickyCount(w, p, Ahead(w, p, j)) < k && NoOverrun(w, p, Ahead(w, p, j))
  {
    if StickyCount(w, p, Ahead(w, p, j)) < k && NoOverrun(w, p, Ahead(w, p, j)) {
      var n := EventuallyVisited(w, p, j, k);
    }
    if EverVisited(w, p, j) {
      var n: nat :| p.listing[j] in Visited(Passes(w, Again(p, n)), p);
      var mid := Passes(w, Again(p, n));
      PassFrame(mid, p);
      VisitedIff(mid, p, j, k);
      QueueStays(w, p, j, n);
      StickyAtMost(mid, p, Ahead(mid, p, j));
    }
  }

  /**
   Whatever the limit: once every request a pass visits is sticky, all later passes choose and visit the same
   requests, and no other candidate is ever reached.
   */
  lemma {:induction false} StuckHeadStarvesRest(w: World, p: PassInput, n: nat)
    requires Distinct(p.listing) && p.execute && forall x :: x in Visited(w, p) ==> StickyIn(w, p, x)
    ensures var after := Passes(w, Again(p, n));
            Chosen(after, p) == Chosen(w, p) && Visited(after, p) == Visited(w, p)
            && forall x :: x in Visited(after, p) ==> StickyIn(after, p, x)
  {
    if n == 0 {
      assert Again(p, 0) == [];
    } else {
      StuckHeadStarvesRest(w, p, n - 1);
      AgainLast(w, p, n);
      StuckPassStays(Passes(w, Again(p, n - 1)), p);
    }
  }

  lemma StuckPassStays(w: World, p: PassInput)
    requires Distinct(p.listing) && p.execute && forall x :: x in Visited(w, p) ==> StickyIn(w, p, x)
    ensures var after := Pass(w, p);
            Chosen(after, p) == Chosen(w, p) && Visited(after, p) == Visited(w, p)
            && forall x :: x in Visited(after, p) ==> StickyIn(after, p, x)
  {
    var after := Pass(w, p);
    PassFrame(w, p);
    forall x ensures IsCandidate(after, p.seen, x) <==> IsCandidate(w, p.seen, x)
             ensures IsCandidate(w, p.seen, x) ==> (StickyIn(after, p, x) <==> StickyIn(w, p, x)) {
      if IsCandidate(after, p.seen, x) {
        NoNewCandidates(w, p, x);
      }
      if IsCandidate(w, p.seen, x) {
        CandidateAfterPass(w, p, x);
      }
    }
    SameCandidates(w, after, p.seen, p.listing);
    forall x | x in Chosen(w, p) ensures VisitRaises(w, x, p) <==> VisitRaises(after, x, p) {
      CandidateAfterPass(w, p, x);
      VisitClosesIff(FileOf(w, x), p.seen[x]);
      VisitClosesIff(FileOf(after, x), p.seen[x]);
    }
    ReachedSame(w, after, Chosen(w, p), p);
  }

  /** A diagnosis not completed yet, and a request with a successful retry receipt. */
  const WAITING := Observation(false, 0, false, false, false, false, None, No, No)
  const RETRIED := WAITING.(retryReceipt := true)

  /**
   With limit 1, a waiting request at the head keeps a retried one from ever closing, though its own visit would
   close it.
   */
  lemma WaitingHeadStarves(n: nat)
    ensures var p := PassInput(["a", "b"], map["a" := WAITING, "b" := RETRIED], true, Some(1));
            && Visit(None, RETRIED) == Some(Sealed([RetryReceiptObserved]))
            && "b" !in Visited(Passes(EMPTY, Again(p, n)), p)
  {
    var p := PassInput(["a", "b"], map["a" := WAITING, "b" := RETRIED], true, Some(1));
    assert Distinct(p.listing);
    assert p.listing[..1] == ["a"] && ["a"][..0] == [];
    LoneCandidate(EMPTY, p.seen, "a");
    assert StickyIn(EMPTY, p, "a");
    assert StickyCount(EMPTY, p, ["a"]) == 1;
    LimitedCloserReachesIff(EMPTY, p, 1, 1);
    assert p.listing[1] == "b";
  }

  // ----- unlimited passes -----

  ghost predicate Clear(w: World, p: PassInput, j: nat)
    requires j <= |p.listing|
  {
    NoOverrun(w, p, Ahead(w, p, j))
  }

  /** An unlimited pass visits a candidate exactly when no candidate ahead of it overruns. */
  lemma UnlimitedVisitedIff(w: World, p: PassInput, j: nat)
    requires Distinct(p.listing) && p.execute && p.limit.None?
    requires j < |p.listing| && IsCandidate(w, p.seen, p.listing[j])
    ensures p.listing[j] in Visited(w, p) <==> Clear(w, p, j)
  {
    var k := |p.listing| + 1;
    var q := p.(limit := Some(k));
    CandidatesFit(w, p.seen, p.listing);
    CandidatesFit(w, p.seen, p.listing[..j]);
    assert Chosen(w, p) == Chosen(w, q);
    SameLimit(w, p, q, Chosen(w, p));
    VisitedIff(w, q, j, k);
    assert Ahead(w, q, j) == Ahead(w, p, j);
  }

  lemma {:induction false} SameLimit(w: World, p: PassInput, q: PassInput, ids: seq<Id>)
    requires AllSeen(ids, p) && q == p.(limit := q.limit)
    ensures Reached(w, ids, p) == Reached(w, ids, q)
    decreases |ids|
  {
    if ids != [] && !VisitRaises(w, ids[0], p) {
      SameLimit(w, p, q, ids[1..]);
    }
  }

  lemma {:induction false} CandidatesFit(w: World, seen: map<Id, Observation>, listing: seq<Id>)
    ensures |Candidates(w, seen, listing)| <= |listing|
  {
    if listing != [] {
      CandidatesFit(w, seen, listing[..|listing| - 1]);
    }
  }

  /** The file of a listed request after an unlimited pass. */
  lemma UnlimitedVisit(w: World, p: PassInput, j: nat)
    requires Distinct(p.listing) && p.limit.None? && p.execute && j < |p.listing| && p.listing[j] in p.seen
    ensures var id := p.listing[j];
            FileOf(Pass(w, p), id) == if Clear(w, p, j) then Visit(FileOf(w, id), p.seen[id]) else FileOf(w, id)
    ensures Clear(Pass(w, p), p, j) <==> Clear(w, p, j)
  {
    PassFrame(w, p);
    OverrunsStay(w, p, p.listing[..j]);
    if IsCandidate(w, p.seen, p.listing[j]) {
      UnlimitedVisitedIff(w, p, j);
    }
  }

  /** Unlimited passes that keep seeing the same things change no receipt after the second. */
  lemma PassesSettle(w: World, p: PassInput)
    requires Distinct(p.listing) && p.limit.None? && p.execute
    ensures Pass(Pass(Pass(w, p), p), p).receipts == Pass(Pass(w, p), p).receipts
  {
    var w1 := Pass(w, p);
    var w2 := Pass(w1, p);
    var w3 := Pass(w2, p);
    forall id ensures FileOf(w3, id) == FileOf(w2, id) {
      PassFrame(w2, p);
      if id in p.listing && id in p.seen {
        var j :| 0 <= j < |p.listing| && p.listing[j] == id;
        UnlimitedVisit(w, p, j);
        UnlimitedVisit(w1, p, j);
        UnlimitedVisit(w2, p, j);
        VisitsSettle(FileOf(w, id), p.seen[id]);
      }
    }
    SameFilesSameReceipts(w3, w2);
  }
}
