/**
 * The celebrity lookup: a trimmed query goes through a French Wikipedia text
 * search, a page-properties lookup and a Wikidata entity lookup, and comes
 * out as an ordered, capped list of humans with name, age, death flag and
 * portrait. The three answers of the remote services are inputs: each is a
 * function of the request that produced it.
 */
module CelebrityService {
  import opened Wrappers
  import opened Seqs
  import opened JsString
  import opened WikidataTime

  /** The part of a claim's `mainsnak.datavalue.value` that is read: an item id or a time. */
  datatype Snak = Snak(id: Option<string>, time: Option<string>)

  /** A Wikidata entity: its French label and its P31 (instance of), P569 (birth) and P570 (death) claims. */
  datatype Entity = Entity(frLabel: Option<string>, p31: seq<Snak>, p569: seq<Snak>, p570: seq<Snak>)

  /** A Wikipedia page as the page-properties lookup describes it. */
  datatype PageInfo = PageInfo(
    title: Option<string>,
    disambiguation: Option<string>,
    wikibaseItem: Option<string>,
    thumbnail: Option<string>)

  /** A page that survived the page filters, with its Wikidata id (QID). */
  datatype QidPage = QidPage(qid: string, title: Option<string>, thumbnail: Option<string>)

  /** A search result: the record pushed into `results`. */
  datatype Celebrity = Celebrity(
    id: string,
    name: string,
    age: Option<int>,
    isDead: bool,
    imageUrl: string,
    wikiTitle: Option<string>,
    qid: string)

  /** The answer of one remote call: the parsed body, or the error `fetchJson` throws. */
  datatype Fetched<T> = Ok(value: T) | Failed

  /** The remote calls, as answers to the request each one is given. */
  datatype Provider = Provider(
    search: (string, int) -> Fetched<seq<int>>,
    pages: seq<int> -> Fetched<map<int, PageInfo>>,
    entities: seq<string> -> Fetched<map<string, Entity>>)

  /** A request sent to a remote service. */
  datatype Request =
    | SearchRequest(text: string, srlimit: int)
    | PagesRequest(pageIds: seq<int>)
    | EntitiesRequest(qids: seq<string>)

  /** How a search ends: resolved with results, or rejected with a remote error. */
  datatype Outcome = Resolved(results: seq<Celebrity>) | Rejected

  /** What a search does: its outcome and the requests it sent, in order. */
  datatype Run = Run(outcome: Outcome, requests: seq<Request>)

  const DefaultAvatar := "/defaultAvatar.webp"
  const Unnamed := "Sans nom"
  const Human := "Q5"

  /** Some P31 claim has the item value `Q5`. */
  predicate IsHumanEntity(wd: Entity) {
    AnyHuman(wd.p31)
  }

  /** `claims.some(c => c.id === "Q5")`. */
  predicate AnyHuman(claims: seq<Snak>) {
    claims != [] && (claims[0].id == Some(Human) || AnyHuman(claims[1..]))
  }

  /** `AnyHuman` holds exactly when some claim has the item value `Q5`. */
  lemma {:induction false} AnyHumanIff(claims: seq<Snak>)
    ensures AnyHuman(claims) <==> exists i :: 0 <= i < |claims| && claims[i].id == Some(Human)
  {
    if claims != [] {
      AnyHumanIff(claims[1..]);
      if exists i :: 0 <= i < |claims| && claims[i].id == Some(Human) {
        var i :| 0 <= i < |claims| && claims[i].id == Some(Human);
        if i > 0 {
          assert claims[1..][i - 1] == claims[i];
        }
      }
      if AnyHuman(claims[1..]) {
        var j :| 0 <= j < |claims[1..]| && claims[1..][j].id == Some(Human);
        assert claims[j + 1] == claims[1..][j];
      }
    }
  }

  /** The entity has at least one P570 claim. */
  predicate IsDeceased(wd: Entity) {
    |wd.p570| > 0
  }

  /** The time of the first P569 claim, if there is one. */
  function BirthTime(wd: Entity): (t: Option<string>)
    ensures |wd.p569| > 0 ==> t == wd.p569[0].time
    ensures |wd.p569| == 0 ==> t.None?
  {
    if |wd.p569| > 0 then wd.p569[0].time else None
  }

  /**
   * The page stage for one search hit: the page must be in the answer, must
   * not carry a (truthy) disambiguation marker and must have a (truthy)
   * `wikibase_item`.
   */
  function SelectPage(pages: map<int, PageInfo>, pageId: int): (r: Option<QidPage>)
    ensures r.Some? <==>
      pageId in pages && !Truthy(pages[pageId].disambiguation) && Truthy(pages[pageId].wikibaseItem)
    ensures r.Some? ==>
      r.value == QidPage(pages[pageId].wikibaseItem.value, pages[pageId].title, pages[pageId].thumbnail)
  {
    if pageId !in pages then None
    else
      var p := pages[pageId];
      if Truthy(p.disambiguation) || !Truthy(p.wikibaseItem) then None
      else Some(QidPage(p.wikibaseItem.value, p.title, p.thumbnail))
  }

  /** `SelectPage` for a fixed page answer, as a function of the page id. */
  function PageSelector(pages: map<int, PageInfo>): int -> Option<QidPage> {
    id => SelectPage(pages, id)
  }

  /** The pages kept from the hits, in search order. */
  function PageInfos(pageIds: seq<int>, pages: map<int, PageInfo>): (r: seq<QidPage>)
    ensures |r| <= |pageIds|
  {
    FilterMap(pageIds, PageSelector(pages))
  }

  /** The QIDs of the kept pages, in order: the ids sent to Wikidata. */
  function Qids(infos: seq<QidPage>): (r: seq<string>)
    ensures |r| == |infos| && forall i :: 0 <= i < |r| ==> r[i] == infos[i].qid
  {
    seq(|infos|, i requires 0 <= i < |infos| => infos[i].qid)
  }

  /** The record built for an accepted page and its entity. */
  function MakeCelebrity(p: QidPage, wd: Entity, today: Date): (c: Celebrity)
    ensures c.id == p.qid && c.qid == p.qid && c.wikiTitle == p.title
    ensures c.name != ""
    ensures Truthy(wd.frLabel) ==> c.name == wd.frLabel.value
    ensures !Truthy(wd.frLabel) && Truthy(p.title) ==> c.name == p.title.value
    ensures !Truthy(wd.frLabel) && !Truthy(p.title) ==> c.name == Unnamed
    ensures c.imageUrl != ""
    ensures c.imageUrl == (if Truthy(p.thumbnail) then p.thumbnail.value else DefaultAvatar)
    ensures c.isDead <==> |wd.p570| > 0
    ensures c.isDead ==> c.age == None
    ensures !c.isDead ==> c.age == ComputeAgeFromWikidataTime(BirthTime(wd), today)
  {
    var dead := IsDeceased(wd);
    Celebrity(
      p.qid,
      Or(wd.frLabel, Or(p.title, Unnamed)),
      if dead then None else ComputeAgeFromWikidataTime(BirthTime(wd), today),
      dead,
      Or(p.thumbnail, DefaultAvatar),
      p.title,
      p.qid)
  }

  /** The final stage for one page: skipped unless its entity exists and is human. */
  function Derive(entities: map<string, Entity>, today: Date, p: QidPage): (r: Option<Celebrity>)
    ensures r.Some? <==> p.qid in entities && IsHumanEntity(entities[p.qid])
  {
    if p.qid !in entities then None
    else if !IsHumanEntity(entities[p.qid]) then None
    else Some(MakeCelebrity(p, entities[p.qid], today))
  }

  /** `Derive` for a fixed entity answer, as a function of the page. */
  function Deriver(entities: map<string, Entity>, today: Date): QidPage -> Option<Celebrity> {
    p => Derive(entities, today, p)
  }

  /** Both stages for one search hit: the record it yields, if it passes every filter. */
  function ResolveHit(pages: map<int, PageInfo>, entities: map<string, Entity>, today: Date, pageId: int): (r: Option<Celebrity>)
    ensures r.Some? <==>
      && pageId in pages
      && !Truthy(pages[pageId].disambiguation)
      && Truthy(pages[pageId].wikibaseItem)
      && pages[pageId].wikibaseItem.value in entities
      && IsHumanEntity(entities[pages[pageId].wikibaseItem.value])
    ensures r.Some? ==>
      var p := pages[pageId];
      r.value == MakeCelebrity(QidPage(p.wikibaseItem.value, p.title, p.thumbnail), entities[p.wikibaseItem.value], today)
  {
    Then(SelectPage(pages, pageId), Deriver(entities, today))
  }

  /** `ResolveHit` for fixed answers, as a function of the page id. */
  function HitResolver(pages: map<int, PageInfo>, entities: map<string, Entity>, today: Date): int -> Option<Celebrity> {
    id => ResolveHit(pages, entities, today, id)
  }

  /** Every record the final stage would build, in page order, before the cap. */
  function Candidates(infos: seq<QidPage>, entities: map<string, Entity>, today: Date): (r: seq<Celebrity>)
    ensures |r| <= |infos|
  {
    FilterMap(infos, Deriver(entities, today))
  }

  /** How many records the loop may push: the length check follows the push, so at least one. */
  function Cap(limit: int): (n: nat)
    ensures n >= 1 && (limit >= 1 ==> n == limit)
  {
    if limit >= 1 then limit else 1
  }

  /** The records of the first `i + 1` pages: those of the first `i`, then that of page `i`, if any. */
  lemma CandidatesSnoc(infos: seq<QidPage>, entities: map<string, Entity>, today: Date, i: nat)
    requires i < |infos|
    ensures Candidates(infos[..i + 1], entities, today)
         == Candidates(infos[..i], entities, today) + Keep(Derive(entities, today, infos[i]))
  {
    FilterMapSnoc(infos, i, Deriver(entities, today));
  }

  /** Once the first `i` pages give `Cap(limit)` records, the later pages do not matter. */
  lemma CandidatesCapped(infos: seq<QidPage>, entities: map<string, Entity>, today: Date, i: nat, limit: int)
    requires i <= |infos| && |Candidates(infos[..i], entities, today)| == Cap(limit)
    ensures Take(Candidates(infos, entities, today), Cap(limit)) == Candidates(infos[..i], entities, today)
  {
    assert infos == infos[..i] + infos[i..];
    FilterMapAppend(infos[..i], infos[i..], Deriver(entities, today));
  }

  /**
   * The final loop: walk the pages in order, skip those whose entity is
   * missing or not human, push the record, stop once `limit` are pushed.
   */
  method CollectResults(infos: seq<QidPage>, entities: map<string, Entity>, limit: int, today: Date)
    returns (results: seq<Celebrity>)
    ensures results == Take(Candidates(infos, entities, today), Cap(limit))
  {
    results := [];
    var i := 0;
    while i < |infos|
      invariant 0 <= i <= |infos|
      invariant results == Candidates(infos[..i], entities, today)
      invariant |results| < Cap(limit)
    {
      var p := infos[i];
      CandidatesSnoc(infos, entities, today, i);
      i := i + 1;
      if p.qid !in entities {
        continue;
      }
      var wd := entities[p.qid];
      if !IsHumanEntity(wd) {
        continue;
      }
      var name := Or(wd.frLabel, Or(p.title, Unnamed));
      var dead := IsDeceased(wd);
      var age := if dead then None else ComputeAgeFromWikidataTime(BirthTime(wd), today);
      var imageUrl := Or(p.thumbnail, DefaultAvatar);
      results := results + [Celebrity(p.qid, name, age, dead, imageUrl, p.title, p.qid)];
      if |results| >= limit {
        CandidatesCapped(infos, entities, today, i, limit);
        return;
      }
    }
    assert infos[..i] == infos;
  }

  /** `run` preceded by the request `req`. */
  function Prepend(req: Request, run: Run): (r: Run)
    ensures r.outcome == run.outcome && r.requests == [req] + run.requests
  {
    Run(run.outcome, [req] + run.requests)
  }

  /** The search as a function of its inputs: the specification of `SearchCelebrities`. */
  function Search(query: string, limit: int, today: Date, wiki: Provider): Run {
    var q := Trim(query);
    if q == "" then Run(Resolved([]), []) else RunStage(TextSearch(q), limit, today, wiki)
  }

  /** The remote call a search is about to make, with what it is made for. */
  datatype Stage =
    | TextSearch(q: string)
    | PageLookup(pageIds: seq<int>)
    | EntityLookup(infos: seq<QidPage>)

  /** How many stages follow this one. */
  function Remaining(stage: Stage): (n: nat)
    ensures n <= 2
  {
    match stage
    case TextSearch(_) => 2
    case PageLookup(_) => 1
    case EntityLookup(_) => 0
  }

  /** The request a stage sends: the text search asks for twice the limit. */
  function StageRequest(stage: Stage, limit: int): Request {
    match stage
    case TextSearch(q) => SearchRequest(q, limit * 2)
    case PageLookup(pageIds) => PagesRequest(pageIds)
    case EntityLookup(infos) => EntitiesRequest(Qids(infos))
  }

  /**
   * The search from `stage` on: its call is sent first; a failed call
   * rejects; an empty hit list or no page with a QID resolves to nothing;
   * otherwise the next stage follows, and the last one ends with the final
   * loop over the kept pages.
   */
  function RunStage(stage: Stage, limit: int, today: Date, wiki: Provider): (r: Run)
    ensures r.requests != [] && r.requests[0] == StageRequest(stage, limit)
    ensures |r.requests| <= Remaining(stage) + 1
    decreases Remaining(stage)
  {
    var req := StageRequest(stage, limit);
    match stage
    case TextSearch(q) =>
      (match wiki.search(q, limit * 2)
       case Failed => Run(Rejected, [req])
       case Ok(pageIds) =>
         if |pageIds| == 0 then Run(Resolved([]), [req])
         else Prepend(req, RunStage(PageLookup(pageIds), limit, today, wiki)))
    case PageLookup(pageIds) =>
      (match wiki.pages(pageIds)
       case Failed => Run(Rejected, [req])
       case Ok(pages) =>
         var infos := PageInfos(pageIds, pages);
         if |Qids(infos)| == 0 then Run(Resolved([]), [req])
         else Prepend(req, RunStage(EntityLookup(infos), limit, today, wiki)))
    case EntityLookup(infos) =>
      (match wiki.entities(Qids(infos))
       case Failed => Run(Rejected, [req])
       case Ok(entities) => Run(Resolved(Take(Candidates(infos, entities, today), Cap(limit))), [req]))
  }

  /**
   * `searchCelebrities(query, {limit})`, with the remote calls answered by
   * `wiki`. The body is cut at its awaits: after the text search it goes on
   * in `LookUpPages`, after the page lookup in `LookUpEntities`.
   */
  method SearchCelebrities(query: string, limit: int, today: Date, wiki: Provider) returns (run: Run)
    ensures run == Search(query, limit, today, wiki)
  {
    var q := Trim(query);
    if q == "" {
      return Run(Resolved([]), []);
    }
    var searchReq := SearchRequest(q, limit * 2);
    var searchData := wiki.search(q, limit * 2);
    if searchData.Failed? {
      return Run(Rejected, [searchReq]);
    }
    var pageIds := searchData.value;
    if |pageIds| == 0 {
      return Run(Resolved([]), [searchReq]);
    }
    var rest := LookUpPages(pageIds, limit, today, wiki);
    return Prepend(searchReq, rest);
  }

  /** Stage 2 of `searchCelebrities`: the page lookup for the hits, then the entity lookup. */
  method LookUpPages(pageIds: seq<int>, limit: int, today: Date, wiki: Provider) returns (run: Run)
    ensures run == RunStage(PageLookup(pageIds), limit, today, wiki)
  {
    var pagesReq := PagesRequest(pageIds);
    var pagesData := wiki.pages(pageIds);
    if pagesData.Failed? {
      return Run(Rejected, [pagesReq]);
    }
    var infos := PageInfos(pageIds, pagesData.value);
    var qids := Qids(infos);
    if |qids| == 0 {
      return Run(Resolved([]), [pagesReq]);
    }
    var rest := LookUpEntities(infos, limit, today, wiki);
    return Prepend(pagesReq, rest);
  }

  /** Stage 3 of `searchCelebrities`: the entity lookup for the kept pages, then the final loop. */
  method LookUpEntities(infos: seq<QidPage>, limit: int, today: Date, wiki: Provider) returns (run: Run)
    ensures run == RunStage(EntityLookup(infos), limit, today, wiki)
  {
    var qids := Qids(infos);
    var entitiesReq := EntitiesRequest(qids);
    var wdData := wiki.entities(qids);
    if wdData.Failed? {
      return Run(Rejected, [entitiesReq]);
    }
    var results := CollectResults(infos, wdData.value, limit, today);
    return Run(Resolved(results), [entitiesReq]);
  }

  /** A query that is empty or only whitespace resolves to no results and sends no request; any other query is searched trimmed, asking for twice the limit. */
  lemma BlankQuerySendsNothing(query: string, limit: int, today: Date, wiki: Provider)
    ensures Search(query, limit, today, wiki).requests == [] <==> AllWhitespace(query)
    ensures AllWhitespace(query) ==> Search(query, limit, today, wiki).outcome == Resolved([])
    ensures !AllWhitespace(query) ==> Search(query, limit, today, wiki).requests[0] == SearchRequest(Trim(query), 2 * limit)
  {
    TrimEmptyIff(query);
  }

  /** A search that finds no hit resolves to nothing after its first call. */
  lemma NoHitsStop(query: string, limit: int, today: Date, wiki: Provider)
    requires Trim(query) != "" && wiki.search(Trim(query), limit * 2) == Ok([])
    ensures Search(query, limit, today, wiki) == Run(Resolved([]), [SearchRequest(Trim(query), limit * 2)])
  {
  }

  /** When no hit has a page with a QID, the search resolves to nothing without asking Wikidata. */
  lemma NoQidStops(query: string, limit: int, today: Date, wiki: Provider, pageIds: seq<int>, pages: map<int, PageInfo>)
    requires Trim(query) != "" && wiki.search(Trim(query), limit * 2) == Ok(pageIds) && pageIds != []
    requires wiki.pages(pageIds) == Ok(pages) && PageInfos(pageIds, pages) == []
    ensures Search(query, limit, today, wiki)
         == Run(Resolved([]), [SearchRequest(Trim(query), limit * 2), PagesRequest(pageIds)])
  {
    assert Search(query, limit, today, wiki)
        == Prepend(SearchRequest(Trim(query), limit * 2), RunStage(PageLookup(pageIds), limit, today, wiki));
  }

  /** The answer to `req` was the remote error. */
  predicate CallFailed(wiki: Provider, req: Request) {
    match req
    case SearchRequest(text, n) => wiki.search(text, n).Failed?
    case PagesRequest(ids) => wiki.pages(ids).Failed?
    case EntitiesRequest(qids) => wiki.entities(qids).Failed?
  }

  /** The run rejects exactly when its last call failed, and every earlier call succeeded. */
  predicate FailsOnlyLast(wiki: Provider, run: Run) {
    && (run.outcome == Rejected <==> run.requests != [] && CallFailed(wiki, run.requests[|run.requests| - 1]))
    && forall i :: 0 <= i < |run.requests| - 1 ==> !CallFailed(wiki, run.requests[i])
  }

  /** A successful call in front of a non-empty run keeps `FailsOnlyLast`. */
  lemma PrependSucceeded(wiki: Provider, req: Request, run: Run)
    requires !CallFailed(wiki, req) && run.requests != [] && FailsOnlyLast(wiki, run)
    ensures FailsOnlyLast(wiki, Prepend(req, run))
  {
    var r := Prepend(req, run);
    assert r.requests[|r.requests| - 1] == run.requests[|run.requests| - 1];
    forall i | 0 < i < |r.requests| - 1
      ensures r.requests[i] == run.requests[i - 1]
    {
    }
  }

  /** `FailsOnlyLast` holds of the run from any stage on. */
  lemma {:induction false} StageFailsOnlyLast(stage: Stage, limit: int, today: Date, wiki: Provider)
    ensures FailsOnlyLast(wiki, RunStage(stage, limit, today, wiki))
    decreases Remaining(stage)
  {
    var req := StageRequest(stage, limit);
    match stage
    case TextSearch(q) =>
      if wiki.search(q, limit * 2).Ok? && |wiki.search(q, limit * 2).value| != 0 {
        var next := PageLookup(wiki.search(q, limit * 2).value);
        StageFailsOnlyLast(next, limit, today, wiki);
        PrependSucceeded(wiki, req, RunStage(next, limit, today, wiki));
      }
    case PageLookup(pageIds) =>
      if wiki.pages(pageIds).Ok? && |Qids(PageInfos(pageIds, wiki.pages(pageIds).value))| != 0 {
        var next := EntityLookup(PageInfos(pageIds, wiki.pages(pageIds).value));
        StageFailsOnlyLast(next, limit, today, wiki);
        PrependSucceeded(wiki, req, RunStage(next, limit, today, wiki));
      }
    case EntityLookup(infos) =>
  }

  /**
   * At most three calls, one per stage; the search rejects exactly when the
   * last call it made failed, and no call follows a failed one.
   */
  lemma RejectsOnlyOnFailedCall(query: string, limit: int, today: Date, wiki: Provider)
    ensures |Search(query, limit, today, wiki).requests| <= 3
    ensures FailsOnlyLast(wiki, Search(query, limit, today, wiki))
  {
    var q := Trim(query);
    if q != "" {
      StageFailsOnlyLast(TextSearch(q), limit, today, wiki);
    }
  }

  /** An answered entity lookup resolves to the first `Cap(limit)` records of the kept pages. */
  lemma EntityStageAnswered(infos: seq<QidPage>, entities: map<string, Entity>, limit: int, today: Date, wiki: Provider)
    requires wiki.entities(Qids(infos)) == Ok(entities)
    ensures RunStage(EntityLookup(infos), limit, today, wiki).outcome
         == Resolved(Take(Candidates(infos, entities, today), Cap(limit)))
  {
  }

  /** An answered page lookup, followed by an answered entity lookup if any page is kept. */
  lemma PageStageAnswered(pageIds: seq<int>, pages: map<int, PageInfo>, entities: map<string, Entity>,
                          limit: int, today: Date, wiki: Provider)
    requires wiki.pages(pageIds) == Ok(pages)
    requires PageInfos(pageIds, pages) != [] ==> wiki.entities(Qids(PageInfos(pageIds, pages))) == Ok(entities)
    ensures RunStage(PageLookup(pageIds), limit, today, wiki).outcome
         == Resolved(Take(Candidates(PageInfos(pageIds, pages), entities, today), Cap(limit)))
  {
    var infos := PageInfos(pageIds, pages);
    if infos != [] {
      EntityStageAnswered(infos, entities, limit, today, wiki);
      assert RunStage(PageLookup(pageIds), limit, today, wiki)
          == Prepend(PagesRequest(pageIds), RunStage(EntityLookup(infos), limit, today, wiki));
    }
  }

  /**
   * When all three calls are answered, the results are the first `Cap(limit)`
   * records the final loop builds from the kept pages (none when the search
   * found nothing or no page kept a QID).
   */
  lemma AnsweredSearch(query: string, limit: int, today: Date, wiki: Provider,
                       pageIds: seq<int>, pages: map<int, PageInfo>, entities: map<string, Entity>)
    requires Trim(query) != ""
    requires wiki.search(Trim(query), limit * 2) == Ok(pageIds)
    requires pageIds != [] ==> wiki.pages(pageIds) == Ok(pages)
    requires pageIds != [] && PageInfos(pageIds, pages) != [] ==> wiki.entities(Qids(PageInfos(pageIds, pages))) == Ok(entities)
    ensures Search(query, limit, today, wiki).outcome
         == Resolved(Take(Candidates(PageInfos(pageIds, pages), entities, today), Cap(limit)))
  {
    if pageIds == [] {
      assert PageInfos(pageIds, pages) == [];
    } else {
      PageStageAnswered(pageIds, pages, entities, limit, today, wiki);
      assert Search(query, limit, today, wiki)
          == Prepend(SearchRequest(Trim(query), limit * 2), RunStage(PageLookup(pageIds), limit, today, wiki));
    }
  }

  /** Whatever a stage resolves to is empty or the first `Cap(limit)` records of some kept pages. */
  lemma {:induction false} StageResolvesToCandidates(stage: Stage, limit: int, today: Date, wiki: Provider)
    returns (infos: seq<QidPage>, entities: map<string, Entity>)
    requires RunStage(stage, limit, today, wiki).outcome.Resolved?
    ensures var rs := RunStage(stage, limit, today, wiki).outcome.results;
      rs == [] || rs == Take(Candidates(infos, entities, today), Cap(limit))
    decreases Remaining(stage)
  {
    infos, entities := [], map[];
    match stage
    case TextSearch(q) =>
      if wiki.search(q, limit * 2).Ok? && |wiki.search(q, limit * 2).value| != 0 {
        infos, entities := StageResolvesToCandidates(PageLookup(wiki.search(q, limit * 2).value), limit, today, wiki);
      }
    case PageLookup(pageIds) =>
      if wiki.pages(pageIds).Ok? && |Qids(PageInfos(pageIds, wiki.pages(pageIds).value))| != 0 {
        var next := EntityLookup(PageInfos(pageIds, wiki.pages(pageIds).value));
        infos, entities := StageResolvesToCandidates(next, limit, today, wiki);
      }
    case EntityLookup(kept) =>
      infos, entities := kept, wiki.entities(Qids(kept)).value;
  }

  /** Whatever a stage resolves to has at most `Cap(limit)` records. */
  lemma {:induction false} StageBounded(stage: Stage, limit: int, today: Date, wiki: Provider)
    requires RunStage(stage, limit, today, wiki).outcome.Resolved?
    ensures |RunStage(stage, limit, today, wiki).outcome.results| <= Cap(limit)
    decreases Remaining(stage)
  {
    match stage
    case TextSearch(q) =>
      if wiki.search(q, limit * 2).Ok? && |wiki.search(q, limit * 2).value| != 0 {
        StageBounded(PageLookup(wiki.search(q, limit * 2).value), limit, today, wiki);
      }
    case PageLookup(pageIds) =>
      if wiki.pages(pageIds).Ok? && |Qids(PageInfos(pageIds, wiki.pages(pageIds).value))| != 0 {
        StageBounded(EntityLookup(PageInfos(pageIds, wiki.pages(pageIds).value)), limit, today, wiki);
      }
    case EntityLookup(infos) =>
  }

  /** At most `limit` results, and at most one when `limit` is not positive. */
  lemma ResultsBounded(query: string, limit: int, today: Date, wiki: Provider)
    requires Search(query, limit, today, wiki).outcome.Resolved?
    ensures |Search(query, limit, today, wiki).outcome.results| <= Cap(limit)
    ensures limit >= 1 ==> |Search(query, limit, today, wiki).outcome.results| <= limit
  {
    var q := Trim(query);
    if q != "" {
      StageBounded(TextSearch(q), limit, today, wiki);
    }
  }

  /**
   * With a `limit` below 1 the length check after the push still lets one
   * result through: as soon as some hit passes every filter, there is exactly
   * one result.
   */
  lemma NonPositiveLimitYieldsOne(query: string, limit: int, today: Date, wiki: Provider,
                                  pageIds: seq<int>, pages: map<int, PageInfo>, entities: map<string, Entity>, i: nat)
    requires limit <= 0 && Trim(query) != ""
    requires wiki.search(Trim(query), limit * 2) == Ok(pageIds)
    requires wiki.pages(pageIds) == Ok(pages)
    requires wiki.entities(Qids(PageInfos(pageIds, pages))) == Ok(entities)
    requires i < |pageIds| && ResolveHit(pages, entities, today, pageIds[i]).Some?
    ensures Search(query, limit, today, wiki).outcome.Resolved?
    ensures |Search(query, limit, today, wiki).outcome.results| == 1
  {
    AnsweredSearch(query, limit, today, wiki, pageIds, pages, entities);
    ResultsAreResolvedHits(pageIds, pages, entities, limit, today);
    FilterMapComplete(pageIds, HitResolver(pages, entities, today), i);
  }

  /** The results of the entity stage are the first `Cap(limit)` hits that pass every filter. */
  lemma {:induction false} ResultsAreResolvedHits(pageIds: seq<int>, pages: map<int, PageInfo>,
                                                 entities: map<string, Entity>, limit: int, today: Date)
    ensures Take(Candidates(PageInfos(pageIds, pages), entities, today), Cap(limit))
         == Take(FilterMap(pageIds, HitResolver(pages, entities, today)), Cap(limit))
  {
    FilterMapFuse(pageIds, PageSelector(pages), Deriver(entities, today), HitResolver(pages, entities, today));
  }

  /**
   * The results are an order-preserving selection of the search hits: the
   * k-th result comes from the hit at position idx[k], positions strictly
   * increase, and that hit passed every filter (page present, no
   * disambiguation marker, a QID, an entity that is human).
   */
  lemma ResultsFollowSearchOrder(query: string, limit: int, today: Date, wiki: Provider,
                                 pageIds: seq<int>, pages: map<int, PageInfo>, entities: map<string, Entity>)
    returns (idx: seq<nat>)
    requires Trim(query) != ""
    requires wiki.search(Trim(query), limit * 2) == Ok(pageIds)
    requires wiki.pages(pageIds) == Ok(pages)
    requires wiki.entities(Qids(PageInfos(pageIds, pages))) == Ok(entities)
    ensures Search(query, limit, today, wiki).outcome.Resolved?
    ensures var rs := Search(query, limit, today, wiki).outcome.results;
      && |idx| == |rs|
      && StrictlyIncreasing(idx)
      && forall k :: 0 <= k < |rs| ==>
           idx[k] < |pageIds| && ResolveHit(pages, entities, today, pageIds[idx[k]]) == Some(rs[k])
  {
    AnsweredSearch(query, limit, today, wiki, pageIds, pages, entities);
    ResultsAreResolvedHits(pageIds, pages, entities, limit, today);
    idx := TakeFilterMapOrigins(pageIds, HitResolver(pages, entities, today), Cap(limit));
  }

  /** When the cap is not reached, no hit that passes every filter is left out. */
  lemma NothingLostBelowCap(query: string, limit: int, today: Date, wiki: Provider,
                            pageIds: seq<int>, pages: map<int, PageInfo>, entities: map<string, Entity>, i: nat)
    requires Trim(query) != ""
    requires wiki.search(Trim(query), limit * 2) == Ok(pageIds)
    requires wiki.pages(pageIds) == Ok(pages)
    requires wiki.entities(Qids(PageInfos(pageIds, pages))) == Ok(entities)
    requires |FilterMap(pageIds, HitResolver(pages, entities, today))| <= Cap(limit)
    requires i < |pageIds| && ResolveHit(pages, entities, today, pageIds[i]).Some?
    ensures Search(query, limit, today, wiki).outcome.Resolved?
    ensures ResolveHit(pages, entities, today, pageIds[i]).value in Search(query, limit, today, wiki).outcome.results
  {
    AnsweredSearch(query, limit, today, wiki, pageIds, pages, entities);
    ResultsAreResolvedHits(pageIds, pages, entities, limit, today);
    FilterMapComplete(pageIds, HitResolver(pages, entities, today), i);
  }

  /** What every result satisfies: a dead person has no age, the name and image are never empty, `id` is the QID. */
  predicate WellFormed(c: Celebrity) {
    (c.isDead ==> c.age == None) && c.name != "" && c.imageUrl != "" && c.id == c.qid
  }

  /** Every record the final stage builds is well formed. */
  lemma {:induction false} CandidatesWellFormed(infos: seq<QidPage>, entities: map<string, Entity>, today: Date)
    ensures forall c :: c in Candidates(infos, entities, today) ==> WellFormed(c)
  {
    if infos != [] {
      CandidatesWellFormed(infos[1..], entities, today);
      assert Candidates(infos, entities, today)
          == Keep(Derive(entities, today, infos[0])) + Candidates(infos[1..], entities, today);
    }
  }

  /** Every result is well formed. */
  lemma ResultsWellFormed(query: string, limit: int, today: Date, wiki: Provider)
    requires Search(query, limit, today, wiki).outcome.Resolved?
    ensures forall c :: c in Search(query, limit, today, wiki).outcome.results ==> WellFormed(c)
  {
    var q := Trim(query);
    if q != "" {
      var infos, entities := StageResolvesToCandidates(TextSearch(q), limit, today, wiki);
      CandidatesWellFormed(infos, entities, today);
    }
  }
}
