/** The adaptive sourcing loop (sourcing/src/core/services/postjobfree_sourcing_service.py): query after query down
    the strategy ladder, scraping resumes until enough new candidates are stored or the search dries up. */
module Sourcing {
  import opened Common
  import opened SearchStrategies

  type Url = string

  /** What storing an extracted candidate answers: the id of the new row, or of the row with the same resume. */
  datatype Store = StoreRaised | StoredAs(id: CandidateId)

  /** What comes of one resume page: the download or the parsing fails, the extraction raises, or it reports. */
  datatype Page = DownloadFailed | ParsingFailed | ExtractionRaised
                | Extracted(success: bool, hasPayload: bool, store: Store)

  /** Everything outside the loop: what is stored already, the plan, the clock and the web, as they turn out. */
  datatype World = World(
    original: Request, required: int, excluded: set<CandidateId>, matched: seq<CandidateId>, plan: Option<Plan>,
    maxAttempts: int, patience: int, appendRemote: bool,
    late: nat -> bool,
    optimizerFails: nat -> bool,
    results: nat -> Option<seq<Url>>,
    lateAt: (nat, nat) -> bool,
    page: Url -> Page)
  {
    /** The search for existing candidates returns each row once and leaves the excluded ones out. */
    ghost predicate StoreContract() {
      NoDup(matched) && ToSet(matched) !! excluded
    }

    predicate Late(attempt: nat, i: nat) {
      lateAt(attempt, i)
    }

    /** The results of an attempt's search; a failed search counts as an empty one. */
    function Found(attempt: nat): seq<Url> {
      match results(attempt) case None => [] case Some(urls) => urls
    }
  }

  /** One entry of the attempt history; a skipped duplicate has no query url. */
  datatype Attempt = Attempt(
    number: nat, strategy: Strategy, skipped: bool, resumesFound: nat, persisted: nat, added: nat, remaining: nat)

  datatype StopReason = TargetSatisfied | NoImprovement | MaxAttemptsReached

  function Missing(required: int, have: nat): nat {
    if required > have then required - have else 0
  }

  // ================================================================ what the history says

  function TotalAdded(h: seq<Attempt>): nat {
    if h == [] then 0 else TotalAdded(h[..|h| - 1]) + h[|h| - 1].added
  }

  function MostFound(h: seq<Attempt>): nat {
    if h == [] then 0 else Max(MostFound(h[..|h| - 1]), h[|h| - 1].resumesFound)
  }

  function Max(a: nat, b: nat): nat {
    if b > a then b else a
  }

  ghost predicate IsBest(best: nat, h: seq<Attempt>) {
    && (forall a :: a in h ==> a.resumesFound <= best)
    && (h != [] ==> exists a :: a in h && a.resumesFound == best)
  }

  lemma {:induction false} MostFoundIsMaximum(h: seq<Attempt>)
    ensures IsBest(MostFound(h), h)
  {
    if h != [] {
      var front, last := h[..|h| - 1], h[|h| - 1];
      MostFoundIsMaximum(front);
      BestOfOneMore(MostFound(front), front, last);
      assert h == front + [last];
    }
  }

  lemma {:induction false} BestOfOneMore(best: nat, h: seq<Attempt>, a: Attempt)
    requires IsBest(best, h) && (h == [] ==> best == 0)
    ensures IsBest(Max(best, a.resumesFound), h + [a])
  {
    if a.resumesFound >= best {
      assert a in h + [a];
    } else {
      var b :| b in h && b.resumesFound == best;
      assert b in h + [a];
    }
  }

  function Executed(h: seq<Attempt>): seq<Attempt> {
    if h == [] then []
    else Executed(h[..|h| - 1]) + if h[|h| - 1].skipped then [] else [h[|h| - 1]]
  }

  /** The attempt beat every earlier one or stored a new candidate. */
  predicate Improves(before: seq<Attempt>, a: Attempt) {
    a.resumesFound > MostFound(before) || a.added > 0
  }

  /** How many attempts in a row, up to now, brought nothing. */
  function IdleRun(h: seq<Attempt>): nat {
    if h == [] || Improves(h[..|h| - 1], h[|h| - 1]) then 0 else IdleRun(h[..|h| - 1]) + 1
  }

  /** None of the last n attempts improved, and the one before them did, or there is none. */
  ghost predicate IsIdleSuffix(n: nat, h: seq<Attempt>) {
    && n <= |h|
    && (forall i :: |h| - n <= i < |h| ==> !Improves(h[..i], h[i]))
    && (n < |h| ==> Improves(h[..|h| - n - 1], h[|h| - n - 1]))
  }

  lemma {:induction false} IdleRunIsLongestSuffix(h: seq<Attempt>)
    ensures IsIdleSuffix(IdleRun(h), h)
  {
    if h != [] {
      var front := h[..|h| - 1];
      IdleRunIsLongestSuffix(front);
      assert forall i :: 0 <= i <= |front| ==> front[..i] == h[..i];
    }
  }

  /** The best search among the executed attempts is the best on record: skipped ones found nothing. */
  lemma {:induction false} SkippedFindNothing(h: seq<Attempt>)
    requires forall i :: 0 <= i < |h| && h[i].skipped ==> h[i].resumesFound == 0
    ensures MostFound(Executed(h)) == MostFound(h)
  {
    if h != [] {
      var n := |h| - 1;
      SkippedFindNothing(h[..n]);
      if h[n].skipped {
        assert Executed(h) == Executed(h[..n]);
      } else {
        assert Executed(h)[..|Executed(h[..n])|] == Executed(h[..n]);
      }
    }
  }

  // ================================================================ scraping one attempt's results

  /** The resume was extracted and stored, so its id may count. */
  predicate Usable(p: Page) {
    p.Extracted? && p.success && p.hasPayload && p.store.StoredAs?
  }

  /** A row was written for the resume; one without a payload got there too if storing did not raise. */
  predicate Stored(p: Page) {
    p.Extracted? && (p.success || !p.hasPayload) && p.store.StoredAs?
  }

  /** The candidate a resume page contributes, known already or not. */
  function Yield(w: World, url: Url): set<CandidateId> {
    if Usable(w.page(url)) && w.page(url).store.id !in w.excluded then {w.page(url).store.id} else {}
  }

  /** The candidates at hand after fetching these pages. */
  function Held(w: World, fetched: seq<Url>): set<CandidateId> {
    if fetched == [] then ToSet(w.matched)
    else Held(w, fetched[..|fetched| - 1]) + Yield(w, fetched[|fetched| - 1])
  }

  function StoredCount(w: World, fetched: seq<Url>): nat {
    if fetched == [] then 0
    else StoredCount(w, fetched[..|fetched| - 1]) + if Stored(w.page(fetched[|fetched| - 1])) then 1 else 0
  }

  function With(fetched: seq<Url>, url: Url): seq<Url> {
    if url in fetched then fetched else fetched + [url]
  }

  /** The pages fetched, and behind them those of `urls` that were not, each once. */
  function WithNew(fetched: seq<Url>, urls: seq<Url>): seq<Url> {
    if urls == [] then fetched
    else With(WithNew(fetched, urls[..|urls| - 1]), urls[|urls| - 1])
  }

  lemma {:induction false} FetchOneMore(w: World, fetched: seq<Url>, url: Url)
    ensures Held(w, fetched + [url]) == Held(w, fetched) + Yield(w, url)
    ensures StoredCount(w, fetched + [url]) == StoredCount(w, fetched) + if Stored(w.page(url)) then 1 else 0
  {
    assert (fetched + [url])[..|fetched|] == fetched;
  }

  lemma {:induction false} WithOneMore(fetched: seq<Url>, urls: seq<Url>, i: nat)
    requires i < |urls|
    ensures WithNew(fetched, urls[..i + 1]) == With(WithNew(fetched, urls[..i]), urls[i])
  {
    assert urls[..i + 1][..i] == urls[..i];
  }

  /** The results of an attempt are left at the i-th: time is up or the target is met. */
  predicate Halts(w: World, attempt: nat, fetched: seq<Url>, i: nat)
    requires i <= |w.Found(attempt)|
  {
    w.Late(attempt, i) || |Held(w, WithNew(fetched, w.Found(attempt)[..i]))| >= w.required
  }

  predicate InTime(w: World, attempt: nat) {
    forall i :: 0 <= i < |w.Found(attempt)| ==> !w.Late(attempt, i)
  }

  /** How far, from the i-th result on, an attempt gets. */
  function Reach(w: World, attempt: nat, fetched: seq<Url>, i: nat): (r: nat)
    requires i <= |w.Found(attempt)|
    ensures i <= r <= |w.Found(attempt)| && (r < |w.Found(attempt)| ==> Halts(w, attempt, fetched, r))
    decreases |w.Found(attempt)| - i
  {
    if i == |w.Found(attempt)| || Halts(w, attempt, fetched, i) then i else Reach(w, attempt, fetched, i + 1)
  }

  /** The pages fetched by the end of an attempt. */
  function Sweep(w: World, attempt: nat, fetched: seq<Url>): seq<Url> {
    WithNew(fetched, w.Found(attempt)[..Reach(w, attempt, fetched, 0)])
  }

  method ScrapeOne(w: World, url: Url, existing: set<CandidateId>)
    returns (after: set<CandidateId>, persisted: nat, added: nat)
    ensures persisted == if Stored(w.page(url)) then 1 else 0
    ensures after == existing + Yield(w, url)
    ensures var p := w.page(url);
      persisted == 1 <==> p.Extracted? && (p.success || !p.hasPayload) && p.store.StoredAs?
    ensures var p := w.page(url);
      after == existing + if p.Extracted? && p.success && p.hasPayload && p.store.StoredAs? && p.store.id !in w.excluded
                          then {p.store.id} else {}
    ensures added == |after| - |existing| <= persisted
  {
    after, persisted, added := existing, 0, 0;
    match w.page(url) {
      case Extracted(success, hasPayload, store) =>
        if !(success || !hasPayload) {
          return;
        }
        if store.StoreRaised? {
          return;
        }
        persisted := 1;
        // a missing payload that got this far raises when its name is read for the log
        if !hasPayload || store.id in w.excluded {
          return;
        }
        if store.id !in existing {
          after, added := existing + {store.id}, 1;
        }
      case _ =>
    }
  }

  method ScrapeUnlessProcessed(
    w: World, url: Url, processed: set<Url>, existing: set<CandidateId>, ghost fetched: seq<Url>)
    returns (processedAfter: set<Url>, existingAfter: set<CandidateId>, persisted: nat, added: nat)
    requires processed == ToSet(fetched) && existing == Held(w, fetched)
    ensures processedAfter == ToSet(With(fetched, url)) && existingAfter == Held(w, With(fetched, url))
    ensures StoredCount(w, With(fetched, url)) == StoredCount(w, fetched) + persisted
    ensures |existingAfter| == |existing| + added && added <= persisted <= 1
  {
    processedAfter, existingAfter, persisted, added := processed, existing, 0, 0;
    if url !in processed {
      processedAfter := processed + {url};
      existingAfter, persisted, added := ScrapeOne(w, url, existing);
      FetchOneMore(w, fetched, url);
      ToSetSnoc(fetched, url);
    }
  }

  /** The pages fetched when the first i results of an attempt have been gone through. */
  function PagesAt(w: World, attempt: nat, fetched: seq<Url>, i: nat): seq<Url>
    requires i <= |w.Found(attempt)|
  {
    WithNew(fetched, w.Found(attempt)[..i])
  }

  /** One result of an attempt, unless it is to be left there. */
  method ScrapeNext(w: World, attempt: nat, i: nat, processed: set<Url>, existing: set<CandidateId>, ghost fetched: seq<Url>)
    returns (halted: bool, processedAfter: set<Url>, existingAfter: set<CandidateId>, persisted: nat, added: nat)
    requires i < |w.Found(attempt)|
    requires processed == ToSet(PagesAt(w, attempt, fetched, i)) && existing == Held(w, PagesAt(w, attempt, fetched, i))
    ensures halted == Halts(w, attempt, fetched, i) && (!halted ==> |existing| < w.required)
    ensures var after := PagesAt(w, attempt, fetched, if halted then i else i + 1);
      && processedAfter == ToSet(after) && existingAfter == Held(w, after)
      && StoredCount(w, after) == StoredCount(w, PagesAt(w, attempt, fetched, i)) + persisted
    ensures |existingAfter| == |existing| + added && added <= persisted <= if halted then 0 else 1
  {
    processedAfter, existingAfter, persisted, added := processed, existing, 0, 0;
    halted := w.Late(attempt, i) || Missing(w.required, |existing|) == 0;
    if !halted {
      WithOneMore(fetched, w.Found(attempt), i);
      processedAfter, existingAfter, persisted, added :=
        ScrapeUnlessProcessed(w, w.Found(attempt)[i], processed, existing, PagesAt(w, attempt, fetched, i));
    }
  }

  method Scrape(w: World, attempt: nat, processed: set<Url>, existing: set<CandidateId>, ghost fetched: seq<Url>)
    returns (processedAfter: set<Url>, existingAfter: set<CandidateId>, persisted: nat, added: nat)
    requires processed == ToSet(fetched) && existing == Held(w, fetched) && |existing| < w.required
    ensures var after := Sweep(w, attempt, fetched);
      && processedAfter == ToSet(after) && existingAfter == Held(w, after)
      && StoredCount(w, after) == StoredCount(w, fetched) + persisted
    ensures |existingAfter| == |existing| + added && |existingAfter| <= w.required
    ensures added <= persisted <= |w.Found(attempt)|
  {
    var n, i, halted := |w.Found(attempt)|, 0, false;
    processedAfter, existingAfter, persisted, added := processed, existing, 0, 0;
    assert PagesAt(w, attempt, fetched, 0) == fetched;
    while i < n && !halted
      invariant 0 <= i <= n
      invariant Reach(w, attempt, fetched, 0) == if halted then i else Reach(w, attempt, fetched, i)
      invariant processedAfter == ToSet(PagesAt(w, attempt, fetched, i))
      invariant existingAfter == Held(w, PagesAt(w, attempt, fetched, i))
      invariant StoredCount(w, PagesAt(w, attempt, fetched, i)) == StoredCount(w, fetched) + persisted
      invariant |existingAfter| == |existing| + added && |existingAfter| <= w.required
      invariant added <= persisted <= i
      decreases n - i, if halted then 0 else 1
    {
      var p, a;
      halted, processedAfter, existingAfter, p, a := ScrapeNext(w, attempt, i, processedAfter, existingAfter, fetched);
      persisted, added := persisted + p, added + a;
      if !halted {
        i := i + 1;
      }
    }
  }

  // ================================================================ the loop

  function SignatureAt(w: World, a: Attempt): Signature {
    if a.number == 0 then Signature("", multiset{}, None)
    else SignatureOf(AttemptQuery(w.original, w.plan, a.number, w.appendRemote))
  }

  /** The queries sent, one per executed attempt. */
  function SentIn(w: World, h: seq<Attempt>): seq<Signature> {
    if h == [] then []
    else SentIn(w, h[..|h| - 1]) + if h[|h| - 1].skipped then [] else [SignatureAt(w, h[|h| - 1])]
  }

  /** The pages fetched over the attempts, in order. */
  function PagesOf(w: World, h: seq<Attempt>): seq<Url> {
    if h == [] then [] else PagesAfter(w, PagesOf(w, h[..|h| - 1]), h[|h| - 1])
  }

  function PagesAfter(w: World, fetched: seq<Url>, a: Attempt): seq<Url> {
    if a.skipped then fetched else Sweep(w, a.number, fetched)
  }

  /** The history is a walk down the ladder: attempt by attempt, each with the strategy of its place, skipped exactly
      when its query was sent before, and with the figures of its sweep. */
  ghost predicate Recorded(w: World, h: seq<Attempt>) {
    forall i :: 0 <= i < |h| ==> PlaceRecorded(w, h, i)
  }

  ghost predicate PlaceRecorded(w: World, h: seq<Attempt>, i: nat)
    requires i < |h|
  {
    EntryRecorded(w, h[..i], h[i])
  }

  predicate EntryRecorded(w: World, before: seq<Attempt>, a: Attempt) {
    && a.number == |before| + 1
    && a.strategy == StrategyAfter(|before|)
    && (a.skipped <==> SignatureAt(w, a) in SentIn(w, before))
    && (a.skipped ==> a.resumesFound == 0 && a.persisted == 0 && a.added == 0)
    && (!a.skipped ==> a.resumesFound == |w.Found(a.number)| && a.added <= a.persisted <= a.resumesFound)
    && HasFigures(w, PagesOf(w, before), a)
    && a.remaining == Missing(w.required, |w.matched| + TotalAdded(before) + a.added)
  }

  /** The attempt stored and added what lies between the pages before it and the pages after it. */
  predicate HasFigures(w: World, fetched: seq<Url>, a: Attempt) {
    && |Held(w, PagesAfter(w, fetched, a))| == |Held(w, fetched)| + a.added
    && StoredCount(w, PagesAfter(w, fetched, a)) == StoredCount(w, fetched) + a.persisted
  }

  lemma {:induction false} RecordedGrows(w: World, h: seq<Attempt>, a: Attempt)
    requires Recorded(w, h) && EntryRecorded(w, h, a)
    ensures Recorded(w, h + [a])
  {
    forall i | 0 <= i < |h + [a]| ensures PlaceRecorded(w, h + [a], i) {
      if i < |h| {
        assert PlaceRecorded(w, h, i);
        assert (h + [a])[..i] == h[..i];
      } else {
        assert (h + [a])[..i] == h;
      }
    }
  }

  lemma {:induction false} RecordedPrefix(w: World, h: seq<Attempt>)
    requires Recorded(w, h) && h != []
    ensures Recorded(w, h[..|h| - 1]) && EntryRecorded(w, h[..|h| - 1], h[|h| - 1])
  {
    var front := h[..|h| - 1];
    forall i | 0 <= i < |front| ensures PlaceRecorded(w, front, i) {
      assert PlaceRecorded(w, h, i);
      assert front[..i] == h[..i];
    }
    assert PlaceRecorded(w, h, |h| - 1);
  }

  /** What the loop keeps: the history, the queries and pages it has been through, the candidates it has, and its
      counters. */
  datatype Books = Books(
    history: seq<Attempt>, seen: set<Signature>, processed: set<Url>, existing: set<CandidateId>,
    best: nat, idle: nat, missing: nat)

  /** What holds of the books at every loop head and at the end. */
  ghost predicate Balanced(w: World, b: Books) {
    && Recorded(w, b.history)
    && b.seen == ToSet(SentIn(w, b.history))
    && b.processed == ToSet(PagesOf(w, b.history))
    && b.existing == Held(w, PagesOf(w, b.history))
    && |b.existing| == |w.matched| + TotalAdded(b.history)
    && |b.existing| <= w.required
    && b.missing == Missing(w.required, |b.existing|)
    && b.best == MostFound(b.history)
    && b.idle == IdleRun(Executed(b.history))
  }

  /** The query of an attempt's own strategy. */
  function QueryOf(w: World): Attempt -> Signature {
    (a: Attempt) =>
      SignatureOf(QueryFor(Optimize(a.strategy, w.original, w.plan), w.original, a.number, w.appendRemote))
  }

  /** The history goes down the ladder: attempt n has strategy min(n, 5). */
  lemma {:induction false} StrategyByNumber(w: World, h: seq<Attempt>, i: nat)
    requires Recorded(w, h) && i < |h|
    ensures h[i].number == i + 1 && h[i].strategy == LADDER[if i < 4 then i else 4]
  {
    assert PlaceRecorded(w, h, i);
  }

  /** The queries sent are, in order, those of the executed attempts' strategies. */
  lemma {:induction false} LadderFollowed(w: World, h: seq<Attempt>)
    requires Recorded(w, h)
    ensures SentIn(w, h) == Map(Executed(h), QueryOf(w))
  {
    if h != [] {
      var front, last := h[..|h| - 1], h[|h| - 1];
      RecordedPrefix(w, h);
      LadderFollowed(w, front);
      MapSnoc(Executed(front), last, QueryOf(w));
      assert SignatureAt(w, last) == QueryOf(w)(last);
    }
  }

  lemma {:induction false} ExecutedAre(h: seq<Attempt>)
    ensures Executed(h) == Filter(h, (a: Attempt) => !a.skipped)
  {
    if h != [] {
      ExecutedAre(h[..|h| - 1]);
    }
  }

  /** The i-th attempt sent this query. */
  predicate SentAt(w: World, h: seq<Attempt>, i: int, s: Signature) {
    0 <= i < |h| && !h[i].skipped && SignatureAt(w, h[i]) == s
  }

  lemma {:induction false} SentByIff(w: World, h: seq<Attempt>, s: Signature)
    ensures s in SentIn(w, h) <==> exists j :: SentAt(w, h, j, s)
  {
    if h != [] {
      var n := |h| - 1;
      SentByIff(w, h[..n], s);
      forall j ensures SentAt(w, h, j, s) <==> SentAt(w, h[..n], j, s) || (j == n && SentAt(w, h, n, s)) {
      }
      SentOneMore(w, h, s);
    }
  }

  lemma {:induction false} SentOneMore(w: World, h: seq<Attempt>, s: Signature)
    requires h != []
    ensures s in SentIn(w, h) <==> s in SentIn(w, h[..|h| - 1]) || SentAt(w, h, |h| - 1, s)
  {
  }

  /** An attempt is skipped exactly if some earlier attempt, not skipped itself, has sent a query that counts as the
      same. */
  lemma {:induction false} SkippedIff(w: World, h: seq<Attempt>, i: nat)
    requires Recorded(w, h) && i < |h|
    ensures h[i].skipped <==> exists j :: j < i && SentAt(w, h, j, SignatureAt(w, h[i]))
  {
    var s := SignatureAt(w, h[i]);
    assert h[i].skipped <==> s in SentIn(w, h[..i]) by {
      assert PlaceRecorded(w, h, i);
    }
    SentByIff(w, h[..i], s);
    forall j ensures SentAt(w, h[..i], j, s) <==> j < i && SentAt(w, h, j, s) {
    }
  }

  /** No query is sent twice. */
  lemma {:induction false} SentOnce(w: World, h: seq<Attempt>)
    requires Recorded(w, h)
    ensures NoDup(SentIn(w, h))
  {
    if h != [] {
      RecordedPrefix(w, h);
      SentOnce(w, h[..|h| - 1]);
    }
  }

  lemma {:induction false} Snoc(w: World, h: seq<Attempt>, a: Attempt)
    ensures TotalAdded(h + [a]) == TotalAdded(h) + a.added
    ensures Executed(h + [a]) == Executed(h) + if a.skipped then [] else [a]
    ensures SentIn(w, h + [a]) == SentIn(w, h) + if a.skipped then [] else [SignatureAt(w, a)]
    ensures MostFound(h + [a]) == Max(MostFound(h), a.resumesFound)
    ensures IdleRun(h + [a]) == if Improves(h, a) then 0 else IdleRun(h) + 1
    ensures PagesOf(w, h + [a]) == PagesAfter(w, PagesOf(w, h), a)
  {
    assert (h + [a])[..|h|] == h;
  }

  /** The books with one more attempt on record. */
  function Entered(b: Books, entry: Attempt): Books {
    b.(history := b.history + [entry], missing := entry.remaining,
       best := Max(b.best, entry.resumesFound),
       idle := if entry.skipped then b.idle
               else if entry.resumesFound > b.best || entry.added > 0 then 0
               else b.idle + 1)
  }

  /** One turn of the loop: the next query, skipped if it was sent before. */
  method TryQuery(w: World, b: Books, attempt: nat) returns (entry: Attempt, after: Books)
    requires Balanced(w, b) && b.missing > 0 && attempt == |b.history| + 1
    ensures Balanced(w, after) && after.history == b.history + [entry]
  {
    var signature := NextSignature(w, |b.history|, attempt);
    if signature in b.seen {
      entry := Attempt(attempt, StrategyAfter(|b.history|), true, 0, 0, 0, b.missing);
      after := Entered(b, entry);
      Skipping(w, b, entry);
    } else {
      entry, after := SendQuery(w, b, attempt, signature);
    }
  }

  /** The strategy is chosen by the length of the history, the location by the attempt number. */
  method NextSignature(w: World, recorded: nat, attempt: nat) returns (signature: Signature)
    requires attempt == recorded + 1
    ensures signature == SignatureOf(AttemptQuery(w.original, w.plan, attempt, w.appendRemote))
  {
    var request := Optimize(StrategyAfter(recorded), w.original, w.plan);
    signature := SignatureOf(QueryFor(request, w.original, attempt, w.appendRemote));
  }

  /** A query not sent before: search, scrape, and put the outcome on record. */
  method SendQuery(w: World, b: Books, attempt: nat, signature: Signature) returns (entry: Attempt, after: Books)
    requires Balanced(w, b) && b.missing > 0 && signature !in b.seen && attempt == |b.history| + 1
    requires signature == SignatureOf(AttemptQuery(w.original, w.plan, attempt, w.appendRemote))
    ensures Balanced(w, after) && after.history == b.history + [entry]
  {
    var processed, existing, persisted, added :=
      Scrape(w, attempt, b.processed, b.existing, PagesOf(w, b.history));
    entry := Attempt(attempt, StrategyAfter(|b.history|), false, |w.Found(attempt)|, persisted, added,
                     Missing(w.required, |existing|));
    after := Entered(b, entry).(seen := b.seen + {signature}, processed := processed, existing := existing);
    Executing(w, b, entry, after);
  }

  lemma ToSetSnoc<T>(s: seq<T>, x: T)
    ensures ToSet(s + [x]) == ToSet(s) + {x}
  {
  }

  function Nothing(w: World): Books {
    Books([], {}, {}, ToSet(w.matched), 0, 0, Missing(w.required, |w.matched|))
  }

  lemma {:induction false} NothingYet(w: World)
    requires w.StoreContract() && |w.matched| <= w.required
    ensures Balanced(w, Nothing(w))
  {
    NoDupCardinality(w.matched);
    assert SentIn(w, []) == [] && Executed([]) == [] && PagesOf(w, []) == [];
  }

  method SourceCandidates(w: World) returns (b: Books, stop: Option<StopReason>)
    requires w.StoreContract()
    ensures stop.None? <==> |w.matched| >= w.required
    ensures stop.None? ==> b == Nothing(w)
    ensures stop.Some? ==> Ran(w, b) && stop == Some(Label(w, b))
    ensures forall n :: 1 <= n <= |b.history| ==> !w.late(n) && !w.optimizerFails(n)
    ensures stop == Some(TargetSatisfied) <==> |w.matched| < w.required <= |b.existing|
    ensures stop == Some(NoImprovement) <==> |b.existing| < w.required && b.idle >= w.patience
    ensures stop == Some(MaxAttemptsReached) <==> |b.existing| < w.required && b.idle < w.patience
    ensures stop == Some(MaxAttemptsReached) ==>
              |b.history| >= w.maxAttempts || w.late(|b.history| + 1) || w.optimizerFails(|b.history| + 1)
  {
    NoDupCardinality(w.matched);
    b, stop := Nothing(w), None;
    if b.missing > 0 {
      b := Search(w);
      stop := Some(Label(w, b));
    }
  }

  /** The attempt is not made: time is up, or the optimizer fails. */
  predicate CutShort(w: World, attempt: nat) {
    w.late(attempt) || w.optimizerFails(attempt)
  }

  function Label(w: World, b: Books): StopReason {
    if b.missing == 0 then TargetSatisfied else if b.idle >= w.patience then NoImprovement else MaxAttemptsReached
  }

  /** After these attempts there is another one. A skipped attempt is no occasion to lose patience. */
  predicate GoesOn(w: World, h: seq<Attempt>) {
    && |w.matched| + TotalAdded(h) < w.required
    && |h| < w.maxAttempts
    && !CutShort(w, |h| + 1)
    && (h == [] || h[|h| - 1].skipped || IdleRun(Executed(h)) < w.patience)
  }

  ghost predicate WentOn(w: World, h: seq<Attempt>) {
    forall n :: 0 <= n < |h| ==> PlaceWentOn(w, h, n)
  }

  ghost predicate PlaceWentOn(w: World, h: seq<Attempt>, n: nat)
    requires n < |h|
  {
    GoesOn(w, h[..n])
  }

  /** The books of a complete search: it went on as long as it had to, and no longer. */
  ghost predicate Ran(w: World, b: Books) {
    Balanced(w, b) && WentOn(w, b.history) && !GoesOn(w, b.history)
  }

  lemma {:induction false} WentOnGrows(w: World, h: seq<Attempt>, a: Attempt)
    requires WentOn(w, h) && GoesOn(w, h)
    ensures WentOn(w, h + [a])
  {
    forall n | 0 <= n < |h + [a]| ensures PlaceWentOn(w, h + [a], n) {
      if n < |h| {
        assert PlaceWentOn(w, h, n);
        assert (h + [a])[..n] == h[..n];
      } else {
        assert (h + [a])[..n] == h;
      }
    }
  }

  /** The loop itself: it ends with the target met, the patience lost, or the attempts, the time or the optimizer
      run out. */
  method Search(w: World) returns (b: Books)
    requires w.StoreContract() && |w.matched| < w.required
    ensures Ran(w, b)
    ensures forall n :: 1 <= n <= |b.history| ==> !w.late(n) && !w.optimizerFails(n)
    ensures |b.history| <= (if w.maxAttempts < 0 then 0 else w.maxAttempts)
    ensures b.missing == if w.required > |b.existing| then w.required - |b.existing| else 0
    ensures b.missing > 0 && |b.history| < w.maxAttempts ==>
              || w.late(|b.history| + 1) || w.optimizerFails(|b.history| + 1)
              || (b.history != [] && !b.history[|b.history| - 1].skipped && b.idle >= w.patience)
  {
    b := Nothing(w);
    NothingYet(w);
    var attempt, stopped := 0, false;
    while b.missing > 0 && attempt < w.maxAttempts && !stopped
      invariant attempt == |b.history| && Balanced(w, b) && WentOn(w, b.history)
      invariant stopped ==> CutShort(w, |b.history| + 1) || !Patient(w, b)
      invariant !stopped ==> Patient(w, b)
      decreases w.maxAttempts - attempt, if stopped then 0 else 1
    {
      if CutShort(w, attempt + 1) {
        stopped := true;
      } else {
        attempt := attempt + 1;
        stopped, b := Turn(w, b, attempt);
      }
    }
    GoesOnIff(w, b);
    AttemptsInTime(w, b);
  }

  /** Every attempt made was made in time and with a query, short of the target and within the number allowed; and with
      time, a query and attempts left, a search falls short only for lack of patience. */
  lemma {:induction false} AttemptsInTime(w: World, b: Books)
    requires Ran(w, b)
    ensures forall n :: 1 <= n <= |b.history| ==> !w.late(n) && !w.optimizerFails(n)
    ensures |b.history| <= (if w.maxAttempts < 0 then 0 else w.maxAttempts)
    ensures forall n :: 0 <= n < |b.history| ==> |w.matched| + TotalAdded(b.history[..n]) < w.required
    ensures b.missing > 0 && |b.history| < w.maxAttempts ==>
              || w.late(|b.history| + 1) || w.optimizerFails(|b.history| + 1)
              || (b.history != [] && !b.history[|b.history| - 1].skipped && b.idle >= w.patience)
  {
    forall n | 0 <= n < |b.history| ensures |w.matched| + TotalAdded(b.history[..n]) < w.required {
      WentOnAfter(w, b.history, n);
    }
    forall n | 1 <= n <= |b.history| ensures !w.late(n) && !w.optimizerFails(n) {
      WentOnAfter(w, b.history, n - 1);
    }
    if b.history != [] {
      WentOnAfter(w, b.history, |b.history| - 1);
    }
    GoesOnIff(w, b);
  }

  lemma {:induction false} WentOnAfter(w: World, h: seq<Attempt>, n: nat)
    requires WentOn(w, h) && n < |h|
    ensures !w.late(n + 1) && !w.optimizerFails(n + 1) && n < w.maxAttempts
    ensures |w.matched| + TotalAdded(h[..n]) < w.required
  {
    assert PlaceWentOn(w, h, n);
  }

  predicate Patient(w: World, b: Books) {
    b.history == [] || b.history[|b.history| - 1].skipped || b.idle < w.patience
  }

  lemma {:induction false} GoesOnIff(w: World, b: Books)
    requires Balanced(w, b)
    ensures GoesOn(w, b.history) <==>
            b.missing > 0 && |b.history| < w.maxAttempts && !CutShort(w, |b.history| + 1) && Patient(w, b)
  {
  }

  /** An attempt that is made, and whether patience is lost with it. */
  method Turn(w: World, b: Books, attempt: nat) returns (stopped: bool, after: Books)
    requires Balanced(w, b) && WentOn(w, b.history) && Patient(w, b) && attempt == |b.history| + 1
    requires b.missing > 0 && |b.history| < w.maxAttempts && !CutShort(w, |b.history| + 1)
    ensures Balanced(w, after) && WentOn(w, after.history) && |after.history| == |b.history| + 1
    ensures stopped <==> !Patient(w, after)
  {
    var entry;
    GoesOnIff(w, b);
    entry, after := TryQuery(w, b, attempt);
    WentOnGrows(w, b.history, entry);
    stopped := !entry.skipped && after.idle >= w.patience;
  }

  lemma {:induction false} Skipping(w: World, b: Books, entry: Attempt)
    requires Balanced(w, b)
    requires entry.number == |b.history| + 1 && entry.strategy == StrategyAfter(|b.history|) && entry.skipped
    requires entry.resumesFound == 0 && entry.persisted == 0 && entry.added == 0 && entry.remaining == b.missing
    requires SignatureAt(w, entry) in SentIn(w, b.history)
    ensures Balanced(w, Entered(b, entry))
  {
    var h := b.history;
    Snoc(w, h, entry);
    RecordedGrows(w, h, entry);
    assert Executed(h + [entry]) == Executed(h) && SentIn(w, h + [entry]) == SentIn(w, h);
  }

  /** The entry of an executed attempt extends the record. */
  lemma {:induction false} Executing(w: World, b: Books, entry: Attempt, after: Books)
    requires Balanced(w, b)
    requires entry.number == |b.history| + 1 && entry.strategy == StrategyAfter(|b.history|) && !entry.skipped
    requires entry.resumesFound == |w.Found(|b.history| + 1)| && entry.added <= entry.persisted <= entry.resumesFound
    requires HasFigures(w, PagesOf(w, b.history), entry)
    requires after.existing == Held(w, Sweep(w, entry.number, PagesOf(w, b.history)))
    requires after.processed == ToSet(Sweep(w, entry.number, PagesOf(w, b.history)))
    requires |after.existing| == |b.existing| + entry.added <= w.required
    requires entry.remaining == Missing(w.required, |after.existing|)
    requires SignatureAt(w, entry) !in SentIn(w, b.history)
    requires after == Entered(b, entry).(seen := b.seen + {SignatureAt(w, entry)}, processed := after.processed,
                                         existing := after.existing)
    ensures Balanced(w, after)
  {
    var h := b.history;
    Snoc(w, h, entry);
    assert Recorded(w, h + [entry]) by {
      EntryFits(w, b, entry);
      RecordedGrows(w, h, entry);
    }
    assert after.seen == ToSet(SentIn(w, h + [entry])) by { ToSetSnoc(SentIn(w, h), SignatureAt(w, entry)); }
    assert after.idle == IdleRun(Executed(h + [entry])) by { IdleAfter(w, h, entry); }
  }

  lemma {:induction false} EntryFits(w: World, b: Books, entry: Attempt)
    requires Balanced(w, b)
    requires entry.number == |b.history| + 1 && entry.strategy == StrategyAfter(|b.history|) && !entry.skipped
    requires entry.resumesFound == |w.Found(|b.history| + 1)| && entry.added <= entry.persisted <= entry.resumesFound
    requires HasFigures(w, PagesOf(w, b.history), entry)
    requires entry.remaining == Missing(w.required, |b.existing| + entry.added)
    requires SignatureAt(w, entry) !in SentIn(w, b.history)
    ensures EntryRecorded(w, b.history, entry)
  {
  }

  lemma {:induction false} IdleAfter(w: World, h: seq<Attempt>, a: Attempt)
    requires Recorded(w, h) && !a.skipped
    ensures IdleRun(Executed(h + [a])) ==
            if a.resumesFound > MostFound(h) || a.added > 0 then 0 else IdleRun(Executed(h)) + 1
  {
    Snoc(w, h, a);
    SkippedFoundNothing(w, h);
    SkippedFindNothing(h);
    Snoc(w, Executed(h), a);
  }

  lemma {:induction false} SkippedFoundNothing(w: World, h: seq<Attempt>)
    requires Recorded(w, h)
    ensures forall i :: 0 <= i < |h| && h[i].skipped ==> h[i].resumesFound == 0
  {
    forall i | 0 <= i < |h| && h[i].skipped ensures h[i].resumesFound == 0 {
      assert PlaceRecorded(w, h, i);
    }
  }

  // ================================================================ what a search guarantees

  /** One of the fetched resumes was extracted successfully and stored as c. */
  ghost predicate CameFrom(w: World, fetched: seq<Url>, c: CandidateId) {
    exists url :: url in fetched && Usable(w.page(url)) && w.page(url).store.id == c
  }

  /** The candidates at hand are the ones found at the start and everybody the fetched resumes brought, bar the
      excluded. */
  lemma {:induction false} HeldIff(w: World, fetched: seq<Url>, c: CandidateId)
    ensures c in Held(w, fetched) <==> c in w.matched || (c !in w.excluded && CameFrom(w, fetched, c))
    ensures CameFrom(w, fetched, c) <==> exists url :: url in fetched && w.page(url) == Extracted(true, true, StoredAs(c))
  {
    if fetched != [] {
      var front, url := fetched[..|fetched| - 1], fetched[|fetched| - 1];
      HeldIff(w, front, c);
      assert fetched == front + [url];
      assert c in Yield(w, url) ==> url in fetched;
      if CameFrom(w, front, c) {
        var u :| u in front && Usable(w.page(u)) && w.page(u).store.id == c;
        assert u in fetched;
      }
    }
  }

  /** What counts as persisted among the fetched pages: everything stored that got past the reject test. */
  lemma {:induction false} StoredCountCounts(w: World, fetched: seq<Url>)
    ensures StoredCount(w, fetched) == Count(fetched, PassedAndStored(w))
  {
    if fetched != [] {
      StoredCountCounts(w, fetched[..|fetched| - 1]);
    }
  }

  function PassedAndStored(w: World): (r: Url -> bool)
    ensures forall url :: r(url) <==>
              w.page(url).Extracted? && !(!w.page(url).success && w.page(url).hasPayload) && w.page(url).store.StoredAs?
  {
    (url: Url) => w.page(url).Extracted? && (w.page(url).success || !w.page(url).hasPayload) && w.page(url).store.StoredAs?
  }

  lemma {:induction false} WithNewExtends(fetched: seq<Url>, urls: seq<Url>)
    ensures fetched <= WithNew(fetched, urls)
    ensures NoDup(fetched) ==> NoDup(WithNew(fetched, urls))
    ensures ToSet(WithNew(fetched, urls)) == ToSet(fetched) + ToSet(urls)
  {
    if urls != [] {
      var front := urls[..|urls| - 1];
      WithNewExtends(fetched, front);
      assert urls == front + [urls[|urls| - 1]];
      ToSetSnoc(front, urls[|urls| - 1]);
      ToSetSnoc(WithNew(fetched, front), urls[|urls| - 1]);
      var all := WithNew(fetched, front);
      assert urls[|urls| - 1] in all <==> urls[|urls| - 1] in ToSet(all);
    }
  }

  lemma {:induction false} FetchedOnce(w: World, h: seq<Attempt>)
    ensures NoDup(PagesOf(w, h))
  {
    if h != [] {
      var before := PagesOf(w, h[..|h| - 1]);
      var a := h[|h| - 1];
      FetchedOnce(w, h[..|h| - 1]);
      WithNewExtends(before, w.Found(a.number)[..Reach(w, a.number, before, 0)]);
    }
  }

  /** The books of a search balance: nothing is asked for twice, exclusions stay out, the count is the start plus
      what each attempt added and never exceeds what was required, and the candidates at hand are exactly those the
      store had and those the fetched resumes brought. */
  lemma {:induction false} SearchBalances(w: World, b: Books)
    requires w.StoreContract() && Balanced(w, b)
    ensures NoDup(SentIn(w, b.history)) && NoDup(PagesOf(w, b.history)) && b.existing !! w.excluded
    ensures |b.existing| == |w.matched| + TotalAdded(b.history) <= w.required && b.missing == w.required - |b.existing|
    ensures forall c :: c in b.existing <==>
                          c in w.matched || (c !in w.excluded && CameFrom(w, PagesOf(w, b.history), c))
  {
    SentOnce(w, b.history);
    FetchedOnce(w, b.history);
    forall c ensures c in b.existing <==>
                       c in w.matched || (c !in w.excluded && CameFrom(w, PagesOf(w, b.history), c))
    {
      HeldIff(w, PagesOf(w, b.history), c);
    }
    forall c | c in b.existing ensures c !in w.excluded {
      assert c in w.matched ==> c in ToSet(w.matched);
    }
  }

  /** A shorter record is the beginning of a longer one. */
  lemma {:induction false} RecordsAgree(w: World, g: seq<Attempt>, h: seq<Attempt>)
    requires Recorded(w, g) && Recorded(w, h) && |g| <= |h|
    ensures g == h[..|g|]
  {
    if g != [] {
      var n := |g| - 1;
      RecordedPrefix(w, g);
      RecordsAgree(w, g[..n], h);
      assert PlaceRecorded(w, h, n);
      SameEntry(w, g[..n], g[n], h[n]);
      SamePlaces(g, h, n);
    }
  }

  lemma SamePlaces<T>(g: seq<T>, h: seq<T>, n: nat)
    requires n < |g| && n < |h| && g[..n] == h[..n] && g[n] == h[n]
    ensures g[..n + 1] == h[..n + 1]
  {
    assert g[..n + 1] == g[..n] + [g[n]] && h[..n + 1] == h[..n] + [h[n]];
  }

  lemma {:induction false} SameEntry(w: World, before: seq<Attempt>, a: Attempt, b: Attempt)
    requires EntryRecorded(w, before, a) && EntryRecorded(w, before, b)
    ensures a == b
  {
    assert SignatureAt(w, a) == SignatureAt(w, b);
    assert PagesAfter(w, PagesOf(w, before), a) == PagesAfter(w, PagesOf(w, before), b);
  }

  lemma {:induction false} WentOnAt(w: World, g: seq<Attempt>, h: seq<Attempt>)
    requires Recorded(w, g) && Recorded(w, h) && WentOn(w, h) && |g| < |h|
    ensures GoesOn(w, g)
  {
    RecordsAgree(w, g, h);
    assert PlaceWentOn(w, h, |g|);
  }

  /** The books a search ends with are determined by what the store, the clock and the web answered. */
  lemma {:induction false} SearchIsDetermined(w: World, b: Books, c: Books)
    requires Ran(w, b) && Ran(w, c)
    ensures b == c
  {
    var g, h := b.history, c.history;
    if |g| < |h| {
      WentOnAt(w, g, h);
    } else if |h| < |g| {
      WentOnAt(w, h, g);
    } else {
      RecordsAgree(w, g, h);
      assert h[..|g|] == h;
    }
  }

  /** What the record says of an attempt: a skipped one found nothing; an executed one says how many results its search
      gave; and each says how many candidates were still wanted after it. */
  lemma {:induction false} HistoryFigures(w: World, h: seq<Attempt>, i: nat)
    requires Recorded(w, h) && i < |h|
    ensures h[i].resumesFound == if h[i].skipped || w.results(i + 1).None? then 0 else |w.results(i + 1).value|
    ensures h[i].skipped ==> h[i].persisted == 0 && h[i].added == 0
    ensures h[i].added <= h[i].persisted <= h[i].resumesFound
    ensures var have := |w.matched| + TotalAdded(h[..i]) + h[i].added;
      h[i].remaining == if w.required > have then w.required - have else 0
  {
    assert PlaceRecorded(w, h, i);
  }

  /** What the no-improvement counter counts: the last `idle` executed attempts, and no more of them, stored nobody new
      and found no resumes, or no more than some earlier one. */
  lemma {:induction false} IdleMeans(w: World, b: Books)
    requires Balanced(w, b)
    ensures var h := Executed(b.history);
      && b.idle <= |h|
      && (forall i :: |h| - b.idle <= i < |h| ==>
            h[i].added == 0 && (h[i].resumesFound == 0 || !BeatsAll(h, i)))
      && (b.idle < |h| ==>
            var i := |h| - b.idle - 1;
            h[i].added > 0 || (h[i].resumesFound > 0 && BeatsAll(h, i)))
  {
    var h := Executed(b.history);
    IdleRunIsLongestSuffix(h);
    forall i | |h| - b.idle <= i < |h| ensures h[i].added == 0 && (h[i].resumesFound == 0 || !BeatsAll(h, i)) {
      ImprovesIff(h, i);
    }
    if b.idle < |h| {
      ImprovesIff(h, |h| - b.idle - 1);
    }
  }

  /** The attempt found more resumes than any before it. */
  predicate BeatsAll(h: seq<Attempt>, i: nat)
    requires i < |h|
  {
    forall j :: 0 <= j < i ==> h[j].resumesFound < h[i].resumesFound
  }

  lemma {:induction false} ImprovesIff(h: seq<Attempt>, i: nat)
    requires i < |h|
    ensures Improves(h[..i], h[i]) <==>
            h[i].added > 0
            || (h[i].resumesFound > 0 && forall j :: 0 <= j < i ==> h[j].resumesFound < h[i].resumesFound)
  {
    MostFoundBelow(h, i);
  }

  lemma {:induction false} MostFoundBelow(h: seq<Attempt>, i: nat)
    requires i <= |h|
    ensures forall j :: 0 <= j < i ==> h[j].resumesFound <= MostFound(h[..i])
    ensures MostFound(h[..i]) == 0 || exists j :: 0 <= j < i && h[j].resumesFound == MostFound(h[..i])
  {
    if i > 0 {
      MostFoundBelow(h, i - 1);
      assert h[..i][..i - 1] == h[..i - 1];
    }
  }

  /** Why a search ended: each label has its cause, and the last one covers what neither of the others does. */
  lemma {:induction false} LabelsExplained(w: World, b: Books)
    requires Ran(w, b)
    ensures Label(w, b) == TargetSatisfied <==> |b.existing| == w.required
    ensures Label(w, b) == NoImprovement ==> IsIdleSuffix(b.idle, Executed(b.history)) && b.idle >= w.patience
    ensures Label(w, b) == MaxAttemptsReached ==> |b.history| >= w.maxAttempts || CutShort(w, |b.history| + 1)
    ensures |b.history| <= if w.maxAttempts < 0 then 0 else w.maxAttempts
  {
    IdleRunIsLongestSuffix(Executed(b.history));
    if b.history != [] {
      assert PlaceWentOn(w, b.history, |b.history| - 1);
      assert |b.history[..|b.history| - 1]| < w.maxAttempts;
    }
  }

  /** The label MAX_ATTEMPTS_REACHED is wrong exactly for a search that was cut short, with attempts left, the target
      open and the patience lasting. */
  lemma {:induction false} LabelMisleadsIff(w: World, b: Books)
    requires Ran(w, b)
    ensures Label(w, b) == MaxAttemptsReached && |b.history| < w.maxAttempts <==>
            CutShort(w, |b.history| + 1) && |b.history| < w.maxAttempts && b.missing > 0 && b.idle < w.patience
  {
  }

  /** Such a search: the optimizer fails at once. */
  function OptimizerDown(): World {
    World(Request("", [], None, false), 1, {}, [], None, 5, 2, false, _ => false, _ => true, _ => None,
          (_, _) => false, _ => DownloadFailed)
  }

  lemma {:induction false} LabelMisleads()
    ensures var w := OptimizerDown(); var b := Nothing(w);
      w.StoreContract() && Ran(w, b) && Label(w, b) == MaxAttemptsReached && |b.history| < w.maxAttempts
  {
    NothingYet(OptimizerDown());
  }

  lemma {:induction false} HeldGrows(w: World, some: seq<Url>, more: seq<Url>)
    requires some <= more
    ensures Held(w, some) <= Held(w, more)
  {
    if |some| < |more| {
      HeldGrows(w, some, more[..|more| - 1]);
    } else {
      assert some == more;
    }
  }

  lemma {:induction false} PagesGrow(w: World, h: seq<Attempt>, n: nat)
    requires n <= |h|
    ensures PagesOf(w, h[..n]) <= PagesOf(w, h)
  {
    if n < |h| {
      var front := h[..|h| - 1];
      PagesGrow(w, front, n);
      assert front[..n] == h[..n];
      var before, a := PagesOf(w, front), h[|h| - 1];
      WithNewExtends(before, w.Found(a.number)[..Reach(w, a.number, before, 0)]);
    } else {
      assert h[..n] == h;
    }
  }

  /** An attempt that stays short of the target and within the time asks for all its results. */
  lemma {:induction false} SweepsAll(w: World, attempt: nat, fetched: seq<Url>)
    requires |Held(w, Sweep(w, attempt, fetched))| < w.required && InTime(w, attempt)
    ensures ToSet(w.Found(attempt)) <= ToSet(Sweep(w, attempt, fetched))
  {
    var urls := w.Found(attempt);
    assert urls[..|urls|] == urls;
    WithNewExtends(fetched, urls);
  }

  /** A page is asked for in an attempt only while there is time and the target is open: at some result before the end of
      the attempt, not late there nor earlier. */
  lemma {:induction false} FetchedInTime(w: World, attempt: nat, fetched: seq<Url>, url: Url) returns (i: nat)
    requires url in Sweep(w, attempt, fetched) && url !in fetched
    ensures i < |w.Found(attempt)| && w.Found(attempt)[i] == url
    ensures forall j :: 0 <= j <= i ==> !w.lateAt(attempt, j) && |Held(w, PagesAt(w, attempt, fetched, j))| < w.required
  {
    var r := Reach(w, attempt, fetched, 0);
    var urls := w.Found(attempt)[..r];
    WithNewExtends(fetched, urls);
    assert url in ToSet(Sweep(w, attempt, fetched));
    i :| 0 <= i < r && urls[i] == url;
    forall j | 0 <= j <= i ensures !w.lateAt(attempt, j) && |Held(w, PagesAt(w, attempt, fetched, j))| < w.required {
      NotHaltedBefore(w, attempt, fetched, 0, j);
    }
  }

  lemma {:induction false} NotHaltedBefore(w: World, attempt: nat, fetched: seq<Url>, i: nat, j: nat)
    requires i <= |w.Found(attempt)| && i <= j < Reach(w, attempt, fetched, i)
    ensures !w.lateAt(attempt, j) && |Held(w, PagesAt(w, attempt, fetched, j))| < w.required
    decreases j - i
  {
    if i < j {
      NotHaltedBefore(w, attempt, fetched, i + 1, j);
    }
  }

  lemma {:induction false} AfterTheAttempt(w: World, h: seq<Attempt>, i: nat)
    requires Recorded(w, h) && i < |h| && !h[i].skipped
    ensures Sweep(w, i + 1, PagesOf(w, h[..i])) <= PagesOf(w, h)
  {
    assert h[i].number == i + 1 by { assert PlaceRecorded(w, h, i); }
    assert h[..i + 1][..i] == h[..i];
    PagesGrow(w, h, i + 1);
  }

  /** A search that falls short of its target has fetched every result of every attempt it had the time for, and so
      holds everybody usable among them. */
  lemma {:induction false} NobodyIsMissed(w: World, b: Books, i: nat, url: Url)
    requires Ran(w, b) && b.missing > 0 && i < |b.history| && !b.history[i].skipped
    requires InTime(w, i + 1) && url in w.Found(i + 1)
    ensures url in PagesOf(w, b.history) && Yield(w, url) <= b.existing
  {
    var sweep := Sweep(w, i + 1, PagesOf(w, b.history[..i]));
    AfterTheAttempt(w, b.history, i);
    HeldGrows(w, sweep, PagesOf(w, b.history));
    SubsetSize(Held(w, sweep), b.existing);
    SweepsAll(w, i + 1, PagesOf(w, b.history[..i]));
    assert url in ToSet(w.Found(i + 1)) && url in ToSet(sweep);
    YieldHeld(w, PagesOf(w, b.history), url);
  }

  lemma {:induction false} YieldHeld(w: World, fetched: seq<Url>, url: Url)
    requires url in fetched
    ensures Yield(w, url) <= Held(w, fetched)
  {
    if url != fetched[|fetched| - 1] {
      YieldHeld(w, fetched[..|fetched| - 1], url);
    }
  }

  /** The counters mean what they are read for: `best` is the best executed search, `idle` the length of the longest
      run of executed attempts without improvement up to now. */
  lemma {:induction false} CountersAreJustified(w: World, b: Books)
    requires Balanced(w, b)
    ensures b.best == MostFound(Executed(b.history)) && IsBest(b.best, Executed(b.history))
    ensures IsIdleSuffix(b.idle, Executed(b.history))
  {
    SkippedFoundNothing(w, b.history);
    SkippedFindNothing(b.history);
    MostFoundIsMaximum(Executed(b.history));
    IdleRunIsLongestSuffix(Executed(b.history));
  }

  /** However many attempts are allowed, at most one query per rung of the ladder is ever sent. */
  lemma {:induction false} AtMostOneQueryPerStrategy(w: World, h: seq<Attempt>)
    requires Recorded(w, h)
    ensures |Executed(h)| == |SentIn(w, h)| <= |LADDER|
  {
    SentOnce(w, h);
    SentFromLadder(w, h);
    NoDupCardinality(SentIn(w, h));
    assert ToSet(SentIn(w, h)) <= Rungs(w, |LADDER|);
    SubsetSize(ToSet(SentIn(w, h)), Rungs(w, |LADDER|));
  }

  function LadderSignature(w: World, i: nat): Signature {
    SignatureOf(AttemptQuery(w.original, w.plan, i + 1, w.appendRemote))
  }

  function Rungs(w: World, n: nat): (r: set<Signature>)
    ensures |r| <= n
    ensures forall i :: 0 <= i < n ==> LadderSignature(w, i) in r
  {
    if n == 0 then {} else Rungs(w, n - 1) + {LadderSignature(w, n - 1)}
  }

  lemma {:induction false} SentFromLadder(w: World, h: seq<Attempt>)
    requires Recorded(w, h)
    ensures |Executed(h)| == |SentIn(w, h)|
    ensures forall s :: s in SentIn(w, h) ==> s in Rungs(w, |LADDER|)
  {
    if h != [] {
      var front := h[..|h| - 1];
      RecordedPrefix(w, h);
      SentFromLadder(w, front);
      OnLadder(w, h[|h| - 1]);
    }
  }

  lemma {:induction false} OnLadder(w: World, a: Attempt)
    requires a.number > 0
    ensures SignatureAt(w, a) in Rungs(w, |LADDER|)
  {
    if a.number > |LADDER| {
      LadderEnds(w.original, w.plan, w.appendRemote, a.number);
    }
    var i := if a.number > |LADDER| then |LADDER| - 1 else a.number - 1;
    assert SignatureAt(w, a) == LadderSignature(w, i);
  }

  lemma {:induction false} SubsetSize<T>(a: set<T>, b: set<T>)
    requires a <= b
    ensures |a| <= |b|
    decreases a
  {
    if a != {} {
      var x :| x in a;
      SubsetSize(a - {x}, b - {x});
    }
  }

  /** The second attempt of a search is wasted exactly when its query says what the first did. */
  lemma {:induction false} SecondAttemptSkippedIff(w: World, h: seq<Attempt>)
    requires Recorded(w, h) && |h| >= 2
    ensures h[1].skipped <==> SecondRepeatsFirst(w.original, w.plan, w.appendRemote)
  {
    FirstAttemptSent(w, h);
    assert EntryRecorded(w, h[..1], h[1]) by { assert PlaceRecorded(w, h, 1); }
    SecondRepeatsFirstIff(w.original, w.plan, w.appendRemote);
  }

  lemma {:induction false} FirstAttemptSent(w: World, h: seq<Attempt>)
    requires Recorded(w, h) && h != []
    ensures h[0].number == 1 && SentIn(w, h[..1]) == [SignatureAt(w, h[0])]
  {
    assert h[..0] == [] && h[..1][..0] == [];
    assert EntryRecorded(w, [], h[0]) by { assert PlaceRecorded(w, h, 0); }
    assert SentIn(w, []) == [];
  }
}
