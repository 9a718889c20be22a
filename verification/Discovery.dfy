/** Link discovery: parsers that share one metadata store and one crawl queue. */
module Discovery {
  import opened Options
  import opened Lists
  import opened Sets

  datatype Meta = Meta(depth: nat, inboundLinks: nat)

  // ----- one parser alone -----

  function DepthOf(meta: map<string, Meta>, page: string): nat {
    if page in meta then meta[page].depth else 0
  }

  /** How often u occurs among the normalised links; None is a link that is skipped. */
  function Sightings(links: seq<Option<string>>, u: string): nat {
    if links == [] then 0
    else Sightings(links[..|links| - 1], u) + if links[|links| - 1] == Some(u) then 1 else 0
  }

  /** The URLs seen for the first time, in that order. */
  function NewUrls(links: seq<Option<string>>, known: set<string>): seq<string> {
    if links == [] then []
    else
      var earlier, l := NewUrls(links[..|links| - 1], known), links[|links| - 1];
      if l == None || l.value in known || l.value in earlier then earlier else earlier + [l.value]
  }

  lemma {:induction false} SightingsIn(links: seq<Option<string>>, u: string)
    ensures Sightings(links, u) > 0 <==> Some(u) in links
  {
    if links == [] {
    } else {
      var n := |links| - 1;
      SightingsIn(links[..n], u);
      assert links == links[..n] + [links[n]];
    }
  }

  /** Each new URL is listed once, and nothing else is. */
  lemma {:induction false} NewUrlsExactly(links: seq<Option<string>>, known: set<string>)
    ensures Distinct(NewUrls(links, known))
    ensures forall u :: u in NewUrls(links, known) <==> Some(u) in links && u !in known
  {
    if links == [] {
    } else {
      var n := |links| - 1;
      NewUrlsExactly(links[..n], known);
      assert links == links[..n] + [links[n]];
    }
  }

  /** What the metadata store holds after these links were seen. */
  ghost predicate Counted(was: map<string, Meta>, meta: map<string, Meta>, links: seq<Option<string>>, nextDepth: nat) {
    && (forall u :: u in meta <==> u in was || Some(u) in links)
    && (forall u :: u in was ==> meta[u] == Meta(was[u].depth, was[u].inboundLinks + Sightings(links, u)))
    && (forall u :: u in meta && u !in was ==>
          Sightings(links, u) > 0 && meta[u] == Meta(nextDepth, Sightings(links, u) - 1))
  }

  lemma SightingsAppend(links: seq<Option<string>>, l: Option<string>)
    ensures forall u :: Sightings(links + [l], u) == Sightings(links, u) + if l == Some(u) then 1 else 0
  {
    assert (links + [l])[..|links|] == links;
  }

  lemma CountRepeat(was: map<string, Meta>, meta: map<string, Meta>, links: seq<Option<string>>, u: string,
                    nextDepth: nat)
    requires Counted(was, meta, links, nextDepth) && u in meta
    ensures Counted(was, meta[u := meta[u].(inboundLinks := meta[u].inboundLinks + 1)], links + [Some(u)], nextDepth)
  {
    SightingsAppend(links, Some(u));
  }

  lemma CountNew(was: map<string, Meta>, meta: map<string, Meta>, links: seq<Option<string>>, u: string, nextDepth: nat)
    requires Counted(was, meta, links, nextDepth) && u !in meta
    ensures Counted(was, meta[u := Meta(nextDepth, 0)], links + [Some(u)], nextDepth)
  {
    SightingsAppend(links, Some(u));
    SightingsIn(links, u);
  }

  lemma CountNone(was: map<string, Meta>, meta: map<string, Meta>, links: seq<Option<string>>, nextDepth: nat)
    requires Counted(was, meta, links, nextDepth)
    ensures Counted(was, meta, links + [None], nextDepth)
  {
    SightingsAppend(links, None);
  }

  /** The store after one link, and after all of them. */
  function AfterLink(meta: map<string, Meta>, l: Option<string>, nextDepth: nat): map<string, Meta> {
    match l
    case None => meta
    case Some(u) =>
      if u in meta then meta[u := meta[u].(inboundLinks := meta[u].inboundLinks + 1)] else meta[u := Meta(nextDepth, 0)]
  }

  function AfterLinks(was: map<string, Meta>, links: seq<Option<string>>, nextDepth: nat): map<string, Meta> {
    if links == [] then was
    else AfterLink(AfterLinks(was, links[..|links| - 1], nextDepth), links[|links| - 1], nextDepth)
  }

  lemma {:induction false} LinksCounted(was: map<string, Meta>, links: seq<Option<string>>, nextDepth: nat)
    ensures Counted(was, AfterLinks(was, links, nextDepth), links, nextDepth)
  {
    if links == [] {
    } else {
      var before, l := links[..|links| - 1], links[|links| - 1];
      var meta := AfterLinks(was, before, nextDepth);
      LinksCounted(was, before, nextDepth);
      assert links == before + [l];
      match l
      case None => CountNone(was, meta, before, nextDepth);
      case Some(u) =>
        if u in meta {
          CountRepeat(was, meta, before, u, nextDepth);
        } else {
          CountNew(was, meta, before, u, nextDepth);
        }
    }
  }

  lemma KnownOrSeen(was: map<string, Meta>, links: seq<Option<string>>, nextDepth: nat, u: string)
    ensures u in AfterLinks(was, links, nextDepth) <==> u in was || Some(u) in links
  {
    LinksCounted(was, links, nextDepth);
  }

  lemma NewUrlsAppend(links: seq<Option<string>>, l: Option<string>, known: set<string>)
    ensures NewUrls(links + [l], known)
         == NewUrls(links, known) + if l == None || l.value in known || l in links then [] else [l.value]
  {
    assert (links + [l])[..|links|] == links;
    NewUrlsExactly(links, known);
  }

  class Shared {
    var meta: map<string, Meta>
    var jobs: seq<string>

    constructor ()
      ensures meta == map[] && jobs == []
    {
      meta, jobs := map[], [];
    }

    /** SETNX: store only when there is nothing yet. */
    method SetIfAbsent(u: string, m: Meta) returns (added: bool)
      modifies this`meta
      ensures added <==> u !in old(meta)
      ensures meta == if u in old(meta) then old(meta) else old(meta)[u := m]
    {
      added := u !in meta;
      if added {
        meta := meta[u := m];
      }
    }

    /** A stored URL gets one link more, a new one its metadata and a crawl job. */
    method DiscoverLink(u: string, nextDepth: nat)
      modifies this
      ensures meta == AfterLink(old(meta), Some(u), nextDepth)
      ensures jobs == if u in old(meta) then old(jobs) else old(jobs) + [u]
    {
      var added := SetIfAbsent(u, Meta(nextDepth, 0));
      if !added {
        meta := meta[u := meta[u].(inboundLinks := meta[u].inboundLinks + 1)];
        return;
      }
      jobs := jobs + [u];
    }

    /** The discovery loop for one page that nobody interferes with. */
    method DiscoverLinks(page: string, links: seq<Option<string>>)
      modifies this
      ensures Counted(old(meta), meta, links, DepthOf(old(meta), page) + 1)
      ensures jobs == old(jobs) + NewUrls(links, old(meta).Keys)
    {
      var nextDepth := (if page in meta then meta[page].depth else 0) + 1;
      for i := 0 to |links|
        invariant meta == AfterLinks(old(meta), links[..i], nextDepth)
        invariant jobs == old(jobs) + NewUrls(links[..i], old(meta).Keys)
      {
        assert links[..i + 1] == links[..i] + [links[i]];
        NewUrlsAppend(links[..i], links[i], old(meta).Keys);
        if links[i] == None { continue; }
        var u := links[i].value;
        KnownOrSeen(old(meta), links[..i], nextDepth, u);
        DiscoverLink(u, nextDepth);
      }
      assert links[..|links|] == links;
      LinksCounted(old(meta), links, nextDepth);
    }
  }

  // ----- any number of parsers -----

  /** A parser that found a URL stored already reads its metadata, then writes it back with one link more. */
  datatype Phase = Scanning | Reading(url: string) | Writing(url: string, seen: Meta)

  datatype Parser = Parser(page: string, nextDepth: nat, todo: seq<Option<string>>, phase: Phase)

  /**
   * roots are the pages that were parsed while they had no metadata; found says on which page a URL was
   * discovered. repeats are sightings of stored URLs, writes the updates made for them, and dropped those
   * whose parser stopped in between.
   */
  datatype State = State(
    meta: map<string, Meta>, jobs: seq<string>, parsers: map<nat, Parser>, roots: set<string>,
    found: map<string, string>,
    repeats: multiset<string>, writes: multiset<string>, dropped: multiset<string>)

  const Start := State(map[], [], map[], {}, map[], multiset{}, multiset{}, multiset{})

  datatype Step =
    | Open(p: nat, page: string, links: seq<Option<string>>)
    | Visit(p: nat, enqueued: bool)
    | Read(p: nat)
    | Write(p: nat)
    | Stop(p: nat)

  predicate Enabled(s: State, step: Step) {
    match step
    case Open(p, _, _) => p !in s.parsers
    case Visit(p, _) => p in s.parsers && s.parsers[p].phase.Scanning? && s.parsers[p].todo != []
    case Read(p) => p in s.parsers && s.parsers[p].phase.Reading? && s.parsers[p].phase.url in s.meta
    case Write(p) => p in s.parsers && s.parsers[p].phase.Writing?
    case Stop(p) => p in s.parsers
  }

  function VisitLink(s: State, p: nat, enqueued: bool): State
    requires Enabled(s, Visit(p, enqueued))
  {
    var parser := s.parsers[p];
    var rest := parser.(todo := parser.todo[1..]);
    match parser.todo[0]
    case None => s.(parsers := s.parsers[p := rest])
    case Some(u) =>
      if u in s.meta then
        s.(parsers := s.parsers[p := rest.(phase := Reading(u))], repeats := s.repeats + multiset{u})
      else
        s.(parsers := s.parsers[p := rest],
           meta := s.meta[u := Meta(parser.nextDepth, 0)],
           found := s.found[u := parser.page],
           jobs := if enqueued then s.jobs + [u] else s.jobs)
  }

  function WriteBack(s: State, p: nat): State
    requires Enabled(s, Write(p))
  {
    var parser := s.parsers[p];
    var u, seen := parser.phase.url, parser.phase.seen;
    s.(parsers := s.parsers[p := parser.(phase := Scanning)],
       meta := s.meta[u := seen.(inboundLinks := seen.inboundLinks + 1)],
       writes := s.writes + multiset{u})
  }

  /** A step that is not enabled leaves everything as it is. */
  function Next(s: State, step: Step): State {
    if !Enabled(s, step) then s
    else
      match step
      case Open(p, page, links) =>
        s.(parsers := s.parsers[p := Parser(page, DepthOf(s.meta, page) + 1, links, Scanning)],
           roots := if page in s.meta then s.roots else s.roots + {page})
      case Visit(p, enqueued) => VisitLink(s, p, enqueued)
      case Read(p) =>
        var u := s.parsers[p].phase.url;
        s.(parsers := s.parsers[p := s.parsers[p].(phase := Writing(u, s.meta[u]))])
      case Write(p) => WriteBack(s, p)
      case Stop(p) =>
        s.(parsers := s.parsers - {p},
           dropped := if s.parsers[p].phase.Scanning? then s.dropped else s.dropped + multiset{s.parsers[p].phase.url})
  }

  function After(steps: seq<Step>): State {
    if steps == [] then Start else Next(After(steps[..|steps| - 1]), steps[|steps| - 1])
  }

  /** Undisturbed, the steps of one parser for one link are one round of the loop. */
  lemma LoopIsSteps(s: State, p: nat)
    requires Enabled(s, Visit(p, true))
    ensures var t, l := Next(s, Visit(p, true)), s.parsers[p].todo[0];
            var end := if t.parsers[p].phase.Reading? then Next(Next(t, Read(p)), Write(p)) else t;
            && end.meta == AfterLink(s.meta, l, s.parsers[p].nextDepth)
            && end.jobs == (if l == None || l.value in s.meta then s.jobs else s.jobs + [l.value])
            && end.parsers == s.parsers[p := s.parsers[p].(todo := s.parsers[p].todo[1..])]
  {
  }

  // ----- jobs and depths -----

  predicate About(parser: Parser, u: string) {
    !parser.phase.Scanning? && parser.phase.url == u
  }

  predicate ParserSound(s: State, parser: Parser) {
    && (!parser.phase.Scanning? ==> parser.phase.url in s.meta)
    && (parser.phase.Writing? ==>
          var u, seen := parser.phase.url, parser.phase.seen;
          seen.depth == s.meta[u].depth && seen.inboundLinks <= s.writes[u])
  }

  predicate Sound(s: State) {
    && s.found.Keys == s.meta.Keys
    && (forall u :: u in s.jobs ==> u in s.meta)
    && (forall u :: u in s.meta ==> s.meta[u].inboundLinks <= s.writes[u])
    && (forall p :: p in s.parsers ==> ParserSound(s, s.parsers[p]))
  }

  /** What was discovered stays, where it was discovered and how deep it is. */
  predicate Extends(s: State, t: State) {
    && (forall u :: u in s.meta ==> u in t.meta && t.meta[u].depth == s.meta[u].depth)
    && (forall u :: u in s.found ==> u in t.found && t.found[u] == s.found[u])
    && s.roots <= t.roots && s.jobs <= t.jobs && s.writes <= t.writes
  }

  lemma StepExtends(s: State, step: Step)
    requires Sound(s)
    ensures Extends(s, Next(s, step))
  {
    if Enabled(s, step) && step.Write? {
      assert ParserSound(s, s.parsers[step.p]);
    }
  }

  lemma ExtendsFurther(s: State, t: State, r: State)
    requires Extends(s, t) && Extends(t, r)
    ensures Extends(s, r)
  {
  }

  lemma OthersStaySound(s: State, t: State, p: nat)
    requires Sound(s) && Extends(s, t) && t.parsers - {p} == s.parsers - {p}
    requires p in t.parsers ==> ParserSound(t, t.parsers[p])
    ensures forall q :: q in t.parsers ==> ParserSound(t, t.parsers[q])
  {
    forall q | q in t.parsers && q != p
      ensures ParserSound(t, t.parsers[q])
    {
      assert q in t.parsers - {p} && (t.parsers - {p})[q] == t.parsers[q];
      assert q in s.parsers - {p} && (s.parsers - {p})[q] == s.parsers[q];
      assert ParserSound(s, s.parsers[q]);
    }
  }

  lemma VisitKeepsSound(s: State, p: nat, enqueued: bool)
    requires Sound(s) && Enabled(s, Visit(p, enqueued))
    ensures Sound(VisitLink(s, p, enqueued))
  {
    var t := VisitLink(s, p, enqueued);
    StepExtends(s, Visit(p, enqueued));
    OthersStaySound(s, t, p);
  }

  lemma WriteKeepsSound(s: State, p: nat)
    requires Sound(s) && Enabled(s, Write(p))
    ensures Sound(WriteBack(s, p))
  {
    var t := WriteBack(s, p);
    assert ParserSound(s, s.parsers[p]);
    StepExtends(s, Write(p));
    OthersStaySound(s, t, p);
  }

  lemma StepKeepsSound(s: State, step: Step)
    requires Sound(s)
    ensures Sound(Next(s, step))
  {
    if Enabled(s, step) {
      match step
      case Visit(p, enqueued) => VisitKeepsSound(s, p, enqueued);
      case Write(p) => WriteKeepsSound(s, p);
      case _ =>
        StepExtends(s, step);
        OthersStaySound(s, Next(s, step), step.p);
    }
  }

  lemma {:induction false} RunsSound(steps: seq<Step>)
    ensures Sound(After(steps))
  {
    if steps == [] {
    } else {
      RunsSound(steps[..|steps| - 1]);
      StepKeepsSound(After(steps[..|steps| - 1]), steps[|steps| - 1]);
    }
  }

  /** A URL keeps its depth, its place of discovery and its job for the rest of the run. */
  lemma {:induction false} DepthNeverChanges(steps: seq<Step>, more: seq<Step>)
    ensures Extends(After(steps), After(steps + more))
  {
    if more == [] {
      assert steps + more == steps;
    } else {
      var n := |more| - 1;
      DepthNeverChanges(steps, more[..n]);
      var mid := After(steps + more[..n]);
      assert After(steps + more) == Next(mid, more[n]) by {
        assert (steps + more)[..|steps| + n] == steps + more[..n];
      }
      RunsSound(steps + more[..n]);
      StepExtends(mid, more[n]);
      ExtendsFurther(After(steps), mid, Next(mid, more[n]));
    }
  }

  lemma StepKeepsOneJob(s: State, step: Step)
    requires Sound(s) && Distinct(s.jobs)
    ensures Distinct(Next(s, step).jobs)
  {
  }

  /** However the parsers interleave, no URL gets two crawl jobs. */
  lemma {:induction false} OneJobPerUrl(steps: seq<Step>)
    ensures Distinct(After(steps).jobs)
    ensures forall u :: u in After(steps).jobs ==> u in After(steps).meta
  {
    RunsSound(steps);
    if steps == [] {
    } else {
      var before := steps[..|steps| - 1];
      OneJobPerUrl(before);
      RunsSound(before);
      StepKeepsOneJob(After(before), steps[|steps| - 1]);
    }
  }

  predicate AllEnqueued(steps: seq<Step>) {
    forall i :: 0 <= i < |steps| && steps[i].Visit? ==> steps[i].enqueued
  }

  /** When the queue accepts every job, each discovered URL has its one. */
  lemma {:induction false} EveryUrlHasItsJob(steps: seq<Step>)
    requires AllEnqueued(steps)
    ensures forall u :: u in After(steps).meta <==> u in After(steps).jobs
  {
    RunsSound(steps);
    if steps == [] {
    } else {
      var before, step := steps[..|steps| - 1], steps[|steps| - 1];
      EveryUrlHasItsJob(before);
      RunsSound(before);
      if step.Write? && Enabled(After(before), step) {
        assert ParserSound(After(before), After(before).parsers[step.p]);
      }
    }
  }

  // ----- depth is the length of a chain of discoveries -----

  /** From a page parsed without metadata, each URL discovered on the one before it. */
  predicate IsChain(roots: set<string>, found: map<string, string>, c: seq<string>) {
    && c != [] && c[0] in roots
    && forall i :: 1 <= i < |c| ==> c[i] in found && found[c[i]] == c[i - 1]
  }

  ghost predicate HasChain(s: State, u: string, links: nat) {
    exists c :: IsChain(s.roots, s.found, c) && c[|c| - 1] == u && |c| == links + 1
  }

  lemma ChainStays(s: State, t: State, u: string, links: nat)
    requires HasChain(s, u, links) && Extends(s, t)
    ensures HasChain(t, u, links)
  {
    var c :| IsChain(s.roots, s.found, c) && c[|c| - 1] == u && |c| == links + 1;
    assert IsChain(t.roots, t.found, c);
  }

  lemma ChainGrows(s: State, page: string, u: string, links: nat)
    requires HasChain(s, page, links) && u in s.found && s.found[u] == page
    ensures HasChain(s, u, links + 1)
  {
    var c :| IsChain(s.roots, s.found, c) && c[|c| - 1] == page && |c| == links + 1;
    assert IsChain(s.roots, s.found, c + [u]);
  }

  lemma RootChain(s: State, page: string)
    requires page in s.roots
    ensures HasChain(s, page, 0)
  {
    assert IsChain(s.roots, s.found, [page]);
  }

  ghost predicate Chained(s: State) {
    && (forall u :: u in s.meta ==> HasChain(s, u, s.meta[u].depth))
    && (forall p :: p in s.parsers ==>
          s.parsers[p].nextDepth > 0 && HasChain(s, s.parsers[p].page, s.parsers[p].nextDepth - 1))
  }

  lemma MetaStaysChained(s: State, t: State)
    requires Chained(s) && Extends(s, t)
    ensures forall u :: u in s.meta ==> HasChain(t, u, t.meta[u].depth)
  {
    forall u | u in s.meta
      ensures HasChain(t, u, t.meta[u].depth)
    {
      ChainStays(s, t, u, s.meta[u].depth);
    }
  }

  lemma ParserStaysChained(s: State, t: State, q: nat)
    requires Chained(s) && Extends(s, t) && q in s.parsers && q in t.parsers
    requires t.parsers[q].page == s.parsers[q].page && t.parsers[q].nextDepth == s.parsers[q].nextDepth
    ensures t.parsers[q].nextDepth > 0 && HasChain(t, t.parsers[q].page, t.parsers[q].nextDepth - 1)
  {
    ChainStays(s, t, s.parsers[q].page, s.parsers[q].nextDepth - 1);
  }

  lemma OpenIsChained(s: State, p: nat, page: string, links: seq<Option<string>>)
    requires Chained(s) && Enabled(s, Open(p, page, links))
    ensures var t := Next(s, Open(p, page, links));
            Extends(s, t) && HasChain(t, page, t.parsers[p].nextDepth - 1)
  {
    var t := Next(s, Open(p, page, links));
    if page in s.meta {
      ChainStays(s, t, page, s.meta[page].depth);
    } else {
      RootChain(t, page);
    }
  }

  lemma VisitedUrlChained(s: State, p: nat, enqueued: bool, u: string)
    requires Sound(s) && Chained(s) && Enabled(s, Visit(p, enqueued)) && u in VisitLink(s, p, enqueued).meta
    ensures HasChain(VisitLink(s, p, enqueued), u, VisitLink(s, p, enqueued).meta[u].depth)
  {
    var t, parser := VisitLink(s, p, enqueued), s.parsers[p];
    assert Extends(s, t) by { StepExtends(s, Visit(p, enqueued)); }
    if u in s.meta {
      ChainStays(s, t, u, s.meta[u].depth);
    } else {
      ChainStays(s, t, parser.page, parser.nextDepth - 1);
      ChainGrows(t, parser.page, u, parser.nextDepth - 1);
    }
  }

  lemma VisitingParserChained(s: State, p: nat, enqueued: bool, q: nat)
    requires Sound(s) && Chained(s) && Enabled(s, Visit(p, enqueued)) && q in s.parsers
    ensures var t := VisitLink(s, p, enqueued);
            q in t.parsers && t.parsers[q].nextDepth > 0 && HasChain(t, t.parsers[q].page, t.parsers[q].nextDepth - 1)
  {
    var t := VisitLink(s, p, enqueued);
    assert Extends(s, t) by { StepExtends(s, Visit(p, enqueued)); }
    ParserStaysChained(s, t, q);
  }

  lemma VisitKeepsChained(s: State, p: nat, enqueued: bool)
    requires Sound(s) && Chained(s) && Enabled(s, Visit(p, enqueued))
    ensures Chained(VisitLink(s, p, enqueued))
  {
    var t := VisitLink(s, p, enqueued);
    forall u | u in t.meta
      ensures HasChain(t, u, t.meta[u].depth)
    {
      VisitedUrlChained(s, p, enqueued, u);
    }
    forall q | q in t.parsers
      ensures t.parsers[q].nextDepth > 0 && HasChain(t, t.parsers[q].page, t.parsers[q].nextDepth - 1)
    {
      VisitingParserChained(s, p, enqueued, q);
    }
  }

  lemma OtherKeepsChained(s: State, step: Step)
    requires Sound(s) && Chained(s) && Enabled(s, step) && !step.Visit?
    ensures Chained(Next(s, step))
  {
    var t := Next(s, step);
    assert Extends(s, t) by { StepExtends(s, step); }
    assert t.meta.Keys == s.meta.Keys by {
      if step.Write? { assert ParserSound(s, s.parsers[step.p]); }
    }
    MetaStaysChained(s, t);
    forall q | q in t.parsers
      ensures t.parsers[q].nextDepth > 0 && HasChain(t, t.parsers[q].page, t.parsers[q].nextDepth - 1)
    {
      if step.Open? && q == step.p {
        OpenIsChained(s, q, step.page, step.links);
      } else {
        ParserStaysChained(s, t, q);
      }
    }
  }

  lemma StepKeepsChained(s: State, step: Step)
    requires Sound(s) && Chained(s)
    ensures Chained(Next(s, step))
  {
    if Enabled(s, step) {
      if step.Visit? {
        VisitKeepsChained(s, step.p, step.enqueued);
      } else {
        OtherKeepsChained(s, step);
      }
    }
  }

  lemma {:induction false} RunsChained(steps: seq<Step>)
    ensures Chained(After(steps))
  {
    if steps == [] {
    } else {
      RunsChained(steps[..|steps| - 1]);
      RunsSound(steps[..|steps| - 1]);
      StepKeepsChained(After(steps[..|steps| - 1]), steps[|steps| - 1]);
    }
  }

  /** The stored depth of a URL is the number of links in a chain of discoveries that leads to it. */
  lemma DepthIsChainLength(steps: seq<Step>, u: string)
    requires u in After(steps).meta
    ensures HasChain(After(steps), u, After(steps).meta[u].depth)
  {
    RunsChained(steps);
  }

  // ----- inbound links -----

  /** The parsers that are about to count a link to u. */
  ghost function Busy(parsers: map<nat, Parser>, u: string): set<nat> {
    set p | p in parsers && About(parsers[p], u)
  }

  ghost predicate Accounted(s: State, u: string) {
    s.repeats[u] == s.writes[u] + |Busy(s.parsers, u)| + s.dropped[u]
  }

  lemma BusyPut(parsers: map<nat, Parser>, p: nat, parser: Parser, u: string)
    ensures |Busy(parsers[p := parser], u)| + (if p in parsers && About(parsers[p], u) then 1 else 0)
         == |Busy(parsers, u)| + if About(parser, u) then 1 else 0
  {
    var rest := Busy(parsers, u) - {p};
    assert Busy(parsers, u) == if p in parsers && About(parsers[p], u) then rest + {p} else rest;
    assert Busy(parsers[p := parser], u) == if About(parser, u) then rest + {p} else rest;
  }

  lemma BusyDrop(parsers: map<nat, Parser>, p: nat, u: string)
    requires p in parsers
    ensures |Busy(parsers - {p}, u)| + (if About(parsers[p], u) then 1 else 0) == |Busy(parsers, u)|
  {
    var rest := Busy(parsers - {p}, u);
    assert Busy(parsers, u) == if About(parsers[p], u) then rest + {p} else rest;
  }

  lemma StepKeepsAccounts(s: State, step: Step, u: string)
    requires Accounted(s, u)
    ensures Accounted(Next(s, step), u)
  {
    if Enabled(s, step) {
      var t, p := Next(s, step), step.p;
      if step.Stop? {
        BusyDrop(s.parsers, p, u);
      } else {
        assert t.parsers == s.parsers[p := t.parsers[p]];
        BusyPut(s.parsers, p, t.parsers[p], u);
      }
    }
  }

  /** Each repeated sighting is written, being written, or was dropped. */
  lemma {:induction false} SightingsAccounted(steps: seq<Step>, u: string)
    ensures Accounted(After(steps), u)
  {
    if steps == [] {
      assert Busy(Start.parsers, u) == {};
    } else {
      SightingsAccounted(steps[..|steps| - 1], u);
      StepKeepsAccounts(After(steps[..|steps| - 1]), steps[|steps| - 1], u);
    }
  }

  /** Inbound links never exceed the repeated sightings, though updates may be lost. */
  lemma InboundLinksBounded(steps: seq<Step>, u: string)
    requires u in After(steps).meta
    ensures After(steps).meta[u].inboundLinks <= After(steps).repeats[u]
  {
    RunsSound(steps);
    SightingsAccounted(steps, u);
  }

  /** The step does not overwrite a newer value of u. */
  predicate FreshStep(s: State, step: Step, u: string) {
    step.Write? && Enabled(s, step) && s.parsers[step.p].phase.url == u ==>
      u in s.meta && s.meta[u] == s.parsers[step.p].phase.seen
  }

  /** Every write-back to u found the value it had read. */
  predicate FreshWrites(steps: seq<Step>, u: string) {
    steps == [] ||
    (FreshWrites(steps[..|steps| - 1], u) && FreshStep(After(steps[..|steps| - 1]), steps[|steps| - 1], u))
  }

  predicate Exact(s: State, u: string) {
    if u in s.meta then s.meta[u].inboundLinks == s.writes[u] else s.writes[u] == 0
  }

  lemma StepKeepsExact(s: State, step: Step, u: string)
    requires Exact(s, u) && FreshStep(s, step, u) && Sound(s)
    ensures Exact(Next(s, step), u)
  {
    if Enabled(s, step) && step.Write? { assert ParserSound(s, s.parsers[step.p]); }
  }

  lemma {:induction false} FreshIsExact(steps: seq<Step>, u: string)
    requires FreshWrites(steps, u)
    ensures Exact(After(steps), u)
  {
    if steps == [] {
    } else {
      var before := steps[..|steps| - 1];
      FreshIsExact(before, u);
      RunsSound(before);
      StepKeepsExact(After(before), steps[|steps| - 1], u);
    }
  }

  /** An update of u was lost, and no parser has a value in hand that would make up for it. */
  predicate LostOne(s: State, u: string) {
    && u in s.meta && s.meta[u].inboundLinks < s.writes[u]
    && forall p :: p in s.parsers && s.parsers[p].phase.Writing? && s.parsers[p].phase.url == u ==>
         s.parsers[p].phase.seen.inboundLinks < s.writes[u]
  }

  lemma WriteKeepsLost(s: State, p: nat, u: string)
    requires Sound(s) && LostOne(s, u) && Enabled(s, Write(p))
    ensures LostOne(WriteBack(s, p), u)
  {
    assert ParserSound(s, s.parsers[p]);
  }

  lemma StepKeepsLost(s: State, step: Step, u: string)
    requires Sound(s) && LostOne(s, u)
    ensures LostOne(Next(s, step), u)
  {
    if Enabled(s, step) && step.Write? { WriteKeepsLost(s, step.p, u); }
  }

  /** A write-back that is not fresh loses an update for good. */
  lemma StaleLoses(s: State, step: Step, u: string)
    requires Sound(s) && Exact(s, u) && !FreshStep(s, step, u)
    ensures LostOne(Next(s, step), u)
  {
    var t := WriteBack(s, step.p);
    assert ParserSound(s, s.parsers[step.p]);
    assert t.writes[u] == s.writes[u] + 1;
    forall p | p in t.parsers && t.parsers[p].phase.Writing? && t.parsers[p].phase.url == u
      ensures t.parsers[p].phase.seen.inboundLinks < t.writes[u]
    {
      assert ParserSound(s, s.parsers[p]);
    }
  }

  lemma {:induction false} StaleIsLost(steps: seq<Step>, u: string)
    requires !FreshWrites(steps, u)
    ensures LostOne(After(steps), u)
  {
    var before, step := steps[..|steps| - 1], steps[|steps| - 1];
    RunsSound(before);
    if FreshWrites(before, u) {
      FreshIsExact(before, u);
      StaleLoses(After(before), step, u);
    } else {
      StaleIsLost(before, u);
      StepKeepsLost(After(before), step, u);
    }
  }

  /**
   * The inbound links of a URL are exactly the repeated sightings, but for those dropped or still being
   * counted, if and only if no write-back to this URL overwrote a newer value.
   */
  lemma InboundLinksExact(steps: seq<Step>, u: string)
    requires u in After(steps).meta
    ensures var s := After(steps);
            s.meta[u].inboundLinks + |Busy(s.parsers, u)| + s.dropped[u] == s.repeats[u] <==> FreshWrites(steps, u)
  {
    SightingsAccounted(steps, u);
    if FreshWrites(steps, u) {
      FreshIsExact(steps, u);
    } else {
      StaleIsLost(steps, u);
    }
  }

  /** Three pages with the same link; two of the parsers read its metadata before either writes it back. */
  function RaceRun(first: string, page: string, other: string, u: string): seq<Step> {
    [Open(0, first, [Some(u)]), Visit(0, true), Open(1, page, [Some(u)]), Open(2, other, [Some(u)]),
     Visit(1, true), Visit(2, true), Read(1), Read(2), Write(1), Write(2)]
  }

  lemma AfterTwo(steps: seq<Step>, n: nat)
    requires n + 2 <= |steps|
    ensures After(steps[..n + 2]) == Next(Next(After(steps[..n]), steps[n]), steps[n + 1])
  {
    assert steps[..n + 2][..n + 1] == steps[..n + 1] && steps[..n + 1][..n] == steps[..n];
  }

  predicate Waiting(s: State, p: nat, u: string) {
    p in s.parsers && s.parsers[p].phase == Scanning && |s.parsers[p].todo| == 1 && s.parsers[p].todo[0] == Some(u)
  }

  predicate Racing(s: State, u: string) {
    1 in s.parsers && 2 in s.parsers && s.parsers[1].phase == Reading(u) && s.parsers[2].phase == Reading(u)
  }

  predicate BothRead(s: State, u: string) {
    && u in s.meta && 1 in s.parsers && 2 in s.parsers
    && s.parsers[1].phase == Writing(u, s.meta[u]) && s.parsers[2].phase == Writing(u, s.meta[u])
  }

  predicate Counts(s: State, u: string, links: nat, writes: nat, repeats: nat) {
    u in s.meta && s.meta[u].inboundLinks == links && s.writes[u] == writes && s.repeats[u] == repeats
  }

  lemma RaceFinds(first: string, u: string)
    ensures var s := Next(Next(Start, Open(0, first, [Some(u)])), Visit(0, true));
            Counts(s, u, 0, 0, 0) && s.parsers.Keys == {0}
  {
  }

  lemma RaceOpens(s: State, page: string, other: string, u: string)
    requires Counts(s, u, 0, 0, 0) && s.parsers.Keys == {0}
    ensures var t := Next(Next(s, Open(1, page, [Some(u)])), Open(2, other, [Some(u)]));
            Waiting(t, 1, u) && Waiting(t, 2, u) && Counts(t, u, 0, 0, 0)
  {
  }

  lemma RaceSights(s: State, u: string)
    requires Waiting(s, 1, u) && Waiting(s, 2, u) && Counts(s, u, 0, 0, 0)
    ensures var t := Next(Next(s, Visit(1, true)), Visit(2, true)); Racing(t, u) && Counts(t, u, 0, 0, 2)
  {
  }

  lemma RaceReads(s: State, u: string)
    requires Racing(s, u) && Counts(s, u, 0, 0, 2)
    ensures var t := Next(Next(s, Read(1)), Read(2)); BothRead(t, u) && Counts(t, u, 0, 0, 2)
  {
  }

  lemma RaceWrites(s: State, u: string)
    requires BothRead(s, u) && Counts(s, u, 0, 0, 2)
    ensures Counts(Next(Next(s, Write(1)), Write(2)), u, 1, 2, 2)
  {
  }

  lemma RaceStart(run: seq<Step>, first: string, u: string)
    requires |run| >= 2 && run[0] == Open(0, first, [Some(u)]) && run[1] == Visit(0, true)
    ensures Counts(After(run[..2]), u, 0, 0, 0) && After(run[..2]).parsers.Keys == {0}
  {
    assert run[..0] == [];
    AfterTwo(run, 0);
    RaceFinds(first, u);
  }

  lemma RaceMiddle(run: seq<Step>, page: string, other: string, u: string)
    requires |run| >= 6 && run[2] == Open(1, page, [Some(u)]) && run[3] == Open(2, other, [Some(u)])
    requires run[4] == Visit(1, true) && run[5] == Visit(2, true)
    requires Counts(After(run[..2]), u, 0, 0, 0) && After(run[..2]).parsers.Keys == {0}
    ensures Racing(After(run[..6]), u) && Counts(After(run[..6]), u, 0, 0, 2)
  {
    assert Waiting(After(run[..4]), 1, u) && Waiting(After(run[..4]), 2, u) && Counts(After(run[..4]), u, 0, 0, 0) by {
      AfterTwo(run, 2);
      RaceOpens(After(run[..2]), page, other, u);
    }
    AfterTwo(run, 4);
    RaceSights(After(run[..4]), u);
  }

  lemma RaceEnd(run: seq<Step>, u: string)
    requires |run| == 10 && run[6] == Read(1) && run[7] == Read(2) && run[8] == Write(1) && run[9] == Write(2)
    requires Racing(After(run[..6]), u) && Counts(After(run[..6]), u, 0, 0, 2)
    ensures Counts(After(run), u, 1, 2, 2)
  {
    assert BothRead(After(run[..8]), u) && Counts(After(run[..8]), u, 0, 0, 2) by {
      AfterTwo(run, 6);
      RaceReads(After(run[..6]), u);
    }
    AfterTwo(run, 8);
    RaceWrites(After(run[..8]), u);
    assert run[..10] == run;
  }

  /** A run in which an update is lost: two repeated sightings, both written back, and one inbound link. */
  lemma UpdateCanBeLost(first: string, page: string, other: string, u: string)
    ensures Counts(After(RaceRun(first, page, other, u)), u, 1, 2, 2)
  {
    var run := RaceRun(first, page, other, u);
    RaceStart(run, first, u);
    RaceMiddle(run, page, other, u);
    RaceEnd(run, u);
  }

  // ----- discovery stops -----

  predicate LinksWithin(steps: seq<Step>, urls: set<string>) {
    forall i :: 0 <= i < |steps| && steps[i].Open? ==>
      forall k :: 0 <= k < |steps[i].links| ==> steps[i].links[k] == None || steps[i].links[k].value in urls
  }

  predicate Within(s: State, urls: set<string>) {
    && s.meta.Keys <= urls
    && forall p :: p in s.parsers ==>
         forall k :: 0 <= k < |s.parsers[p].todo| ==> s.parsers[p].todo[k] == None || s.parsers[p].todo[k].value in urls
  }

  lemma StepKeepsWithin(s: State, step: Step, urls: set<string>)
    requires Sound(s) && Within(s, urls) && LinksWithin([step], urls)
    ensures Within(Next(s, step), urls)
  {
    if Enabled(s, step) {
      if step.Write? { assert ParserSound(s, s.parsers[step.p]); }
      if step.Open? { assert [step][0] == step; }
    }
  }

  lemma {:induction false} RunsWithin(steps: seq<Step>, urls: set<string>)
    requires LinksWithin(steps, urls)
    ensures Within(After(steps), urls)
  {
    if steps == [] {
    } else {
      var before, step := steps[..|steps| - 1], steps[|steps| - 1];
      RunsWithin(before, urls);
      RunsSound(before);
      assert LinksWithin([step], urls);
      StepKeepsWithin(After(before), step, urls);
    }
  }

  /** On finitely many URLs discovery stops: there are never more crawl jobs than URLs. */
  lemma DiscoveryStops(steps: seq<Step>, urls: set<string>)
    requires LinksWithin(steps, urls)
    ensures |After(steps).jobs| <= |urls| && |After(steps).meta| <= |urls|
  {
    RunsWithin(steps, urls);
    OneJobPerUrl(steps);
    var s := After(steps);
    DistinctSize(s.jobs);
    SubsetSize(ToSet(s.jobs), urls);
    SubsetSize(s.meta.Keys, urls);
  }

  // ----- how many discoveries there can be -----

  /** The step stores a URL that was not known. */
  predicate Discovers(s: State, step: Step) {
    && step.Visit? && Enabled(s, step)
    && s.parsers[step.p].todo[0] != None && s.parsers[step.p].todo[0].value !in s.meta
  }

  function Discoveries(steps: seq<Step>): nat {
    if steps == [] then 0
    else Discoveries(steps[..|steps| - 1]) + if Discovers(After(steps[..|steps| - 1]), steps[|steps| - 1]) then 1 else 0
  }

  lemma StepStores(s: State, step: Step)
    requires Sound(s)
    ensures |Next(s, step).meta| == |s.meta| + if Discovers(s, step) then 1 else 0
  {
    var t := Next(s, step);
    if Discovers(s, step) {
      var u := s.parsers[step.p].todo[0].value;
      assert t.meta.Keys == s.meta.Keys + {u};
    } else {
      if Enabled(s, step) && step.Write? { assert ParserSound(s, s.parsers[step.p]); }
      assert t.meta.Keys == s.meta.Keys;
    }
  }

  lemma {:induction false} DiscoveriesAreStored(steps: seq<Step>)
    ensures |After(steps).meta| == Discoveries(steps)
  {
    if steps == [] {
    } else {
      var before := steps[..|steps| - 1];
      DiscoveriesAreStored(before);
      RunsSound(before);
      StepStores(After(before), steps[|steps| - 1]);
    }
  }

  /**
   * On finitely many URLs each discovery lowers the number of URLs left to discover, so there are never
   * more discoveries than URLs, in whatever order the parsers work and however many they are.
   */
  lemma DiscoveriesBounded(steps: seq<Step>, step: Step, urls: set<string>)
    requires LinksWithin(steps + [step], urls)
    ensures Discoveries(steps) <= |urls|
    ensures Discovers(After(steps), step) ==>
              0 <= |urls| - |Next(After(steps), step).meta| < |urls| - |After(steps).meta|
  {
    assert (steps + [step])[..|steps|] == steps;
    assert LinksWithin(steps, urls) by {
      assert forall i :: 0 <= i < |steps| ==> (steps + [step])[i] == steps[i];
    }
    DiscoveryStops(steps, urls);
    DiscoveryStops(steps + [step], urls);
    DiscoveriesAreStored(steps);
    RunsSound(steps);
    StepStores(After(steps), step);
  }
}
