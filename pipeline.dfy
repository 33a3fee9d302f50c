/**
 * The driver in `main`: fetch the index page, collect the module links in
 * document order, then for each module page visit its sections in order and
 * download every task they yield. The first failure ends the whole run.
 *
 * HTML parsing and selector matching are not modelled: a page is given by
 * what the source's selectors find in it.
 */
module Pipeline {
  import opened Results
  import opened Voice
  import Downloader

  /**
   * What the selectors find in one fetched page. `wrapper` is the anchors
   * matched by `div.rich_media_content>p>a` inside the first
   * `div.rich_media_wrp` (None when there is no such div); `content` is the
   * `section` elements inside the first `div.rich_media_content` (None when
   * there is no such div).
   */
  datatype Page = Page(wrapper: Option<seq<Attributes>>, content: Option<seq<Section>>)

  /**
   * The outside world: the page each URL returns (a URL that is not a key
   * cannot be fetched), and the error `download_file` returns for a task
   * (a task that is not a key downloads successfully).
   */
  datatype Web = Web(pages: map<string, Page>, failures: map<Task, Downloader.DownloadError>)

  /** The network actions of a run, in the order they are issued. */
  datatype Action = Fetch(url: string) | FetchMedia(task: Task)

  /**
   * Why a run stopped early. `FetchFailed` is returned from `main` by `?`;
   * every other reason is the panic of an `unwrap`.
   */
  datatype Abort =
    | FetchFailed(url: string)
    | WrapperMissing
    | HrefMissing(anchor: nat)
    | ContentMissing(url: string)
    | SectionFailed(cause: ExtractError)
    | DownloadFailed(task: Task, failure: Downloader.DownloadError)

  datatype Status = Running | Aborted(reason: Abort)

  /** A run so far: the actions issued, and whether it is still going (at the end: whether it completed). */
  datatype Run = Run(trace: seq<Action>, status: Status)

  // ---- Module links ----

  /**
   * The `href` of every anchor, in order and with repeats kept; or the index
   * of the first anchor without one.
   */
  function ModuleLinks(anchors: seq<Attributes>): (r: Result<seq<string>, nat>)
    ensures r.Ok? <==> forall i :: 0 <= i < |anchors| ==> "href" in anchors[i]
    ensures r.Ok? ==>
      |r.value| == |anchors| && forall i :: 0 <= i < |anchors| ==> r.value[i] == anchors[i]["href"]
    ensures r.Err? ==>
      r.error < |anchors| && "href" !in anchors[r.error] && forall i :: 0 <= i < r.error ==> "href" in anchors[i]
  {
    if anchors == [] then Ok([])
    else if "href" !in anchors[0] then Err(0)
    else match ModuleLinks(anchors[1..])
      case Ok(rest) => Ok([anchors[0]["href"]] + rest)
      case Err(i) => Err(i + 1)
  }

  /** The loop that pushes each anchor's `href` onto `module_url_vec`. */
  method CollectModuleLinks(anchors: seq<Attributes>) returns (r: Result<seq<string>, nat>)
    ensures r == ModuleLinks(anchors)
  {
    var links: seq<string> := [];
    var i := 0;
    while i < |anchors|
      invariant i <= |anchors|
      invariant |links| == i
      invariant forall j :: 0 <= j < i ==> "href" in anchors[j] && links[j] == anchors[j]["href"]
    {
      if "href" !in anchors[i] {
        return Err(i);
      }
      links := links + [anchors[i]["href"]];
      i := i + 1;
    }
    assert ModuleLinks(anchors).value == links;
    return Ok(links);
  }

  // ---- The run, one step at a time ----

  function Stop(run: Run, reason: Abort): Run
  {
    run.(status := Aborted(reason))
  }

  /** One section: extract its task, if any, and download it. */
  function VisitSection(run: Run, s: Section, web: Web): (r: Run)
    ensures run.trace <= r.trace
    ensures !run.status.Running? ==> r == run
  {
    if !run.status.Running? then run
    else match SectionTask(s)
      case Err(e) => Stop(run, SectionFailed(e))
      case Ok(None) => run
      case Ok(Some(t)) =>
        var issued := run.(trace := run.trace + [FetchMedia(t)]);
        if t in web.failures then Stop(issued, DownloadFailed(t, web.failures[t])) else issued
  }

  function VisitSections(run: Run, sections: seq<Section>, web: Web): (r: Run)
    ensures run.trace <= r.trace
    decreases |sections|
  {
    if sections == [] || !run.status.Running? then run
    else VisitSections(VisitSection(run, sections[0], web), sections[1..], web)
  }

  /** One module: fetch its page, then visit its sections. */
  function VisitModule(run: Run, url: string, web: Web): (r: Run)
    ensures run.trace <= r.trace
    ensures !run.status.Running? ==> r == run
  {
    if !run.status.Running? then run
    else
      var fetched := run.(trace := run.trace + [Fetch(url)]);
      if url !in web.pages then Stop(fetched, FetchFailed(url))
      else match web.pages[url].content
        case None => Stop(fetched, ContentMissing(url))
        case Some(sections) => VisitSections(fetched, sections, web)
  }

  function VisitModules(run: Run, urls: seq<string>, web: Web): (r: Run)
    ensures run.trace <= r.trace
    decreases |urls|
  {
    if urls == [] || !run.status.Running? then run
    else VisitModules(VisitModule(run, urls[0], web), urls[1..], web)
  }

  /** A whole run from the index page at `seed`. */
  function RunFrom(seed: string, web: Web): (r: Run)
    ensures r.trace != [] && r.trace[0] == Fetch(seed)
  {
    var started := Run([Fetch(seed)], Running);
    if seed !in web.pages then Stop(started, FetchFailed(seed))
    else match web.pages[seed].wrapper
      case None => Stop(started, WrapperMissing)
      case Some(anchors) =>
        match ModuleLinks(anchors)
        case Err(i) => Stop(started, HrefMissing(i))
        case Ok(urls) => VisitModules(started, urls, web)
  }

  lemma AbortedSectionsStay(run: Run, sections: seq<Section>, web: Web)
    requires run.status.Aborted?
    ensures VisitSections(run, sections, web) == run
  {
  }

  lemma AbortedModulesStay(run: Run, urls: seq<string>, web: Web)
    requires run.status.Aborted?
    ensures VisitModules(run, urls, web) == run
  {
  }

  /** `main`'s two nested loops, after the index page has given its links. */
  method RunPipeline(seed: string, web: Web) returns (run: Run)
    ensures run == RunFrom(seed, web)
  {
    run := Run([Fetch(seed)], Running);
    if seed !in web.pages {
      return Stop(run, FetchFailed(seed));
    }
    var index := web.pages[seed];
    if index.wrapper.None? {
      return Stop(run, WrapperMissing);
    }
    var links := CollectModuleLinks(index.wrapper.value);
    if links.Err? {
      return Stop(run, HrefMissing(links.error));
    }
    var urls := links.value;
    var m := 0;
    while m < |urls|
      invariant m <= |urls|
      invariant run.status.Running?
      invariant VisitModules(run, urls[m..], web) == RunFrom(seed, web)
    {
      var url := urls[m];
      assert VisitModules(run, urls[m..], web) == VisitModules(VisitModule(run, url, web), urls[m + 1..], web);
      run := run.(trace := run.trace + [Fetch(url)]);
      if url !in web.pages {
        run := Stop(run, FetchFailed(url));
        AbortedModulesStay(run, urls[m + 1..], web);
        return;
      }
      var page := web.pages[url];
      if page.content.None? {
        run := Stop(run, ContentMissing(url));
        AbortedModulesStay(run, urls[m + 1..], web);
        return;
      }
      var sections := page.content.value;
      var s := 0;
      while s < |sections|
        invariant s <= |sections|
        invariant run.status.Running?
        invariant VisitModules(VisitSections(run, sections[s..], web), urls[m + 1..], web) == RunFrom(seed, web)
      {
        assert VisitSections(run, sections[s..], web) ==
               VisitSections(VisitSection(run, sections[s], web), sections[s + 1..], web);
        var task := SectionTask(sections[s]);
        if task.Err? {
          run := Stop(run, SectionFailed(task.error));
          AbortedSectionsStay(run, sections[s + 1..], web);
          AbortedModulesStay(run, urls[m + 1..], web);
          return;
        }
        if task.value.Some? {
          var t := task.value.value;
          run := run.(trace := run.trace + [FetchMedia(t)]);
          if t in web.failures {
            run := Stop(run, DownloadFailed(t, web.failures[t]));
            AbortedSectionsStay(run, sections[s + 1..], web);
            AbortedModulesStay(run, urls[m + 1..], web);
            return;
          }
        }
        s := s + 1;
      }
      m := m + 1;
    }
  }

  // ---- What a run does, stated without the step functions ----

  /** A section contributes its task (if any) and lets the run go on. */
  predicate SectionSucceeds(s: Section, web: Web)
  {
    match SectionTask(s)
    case Err(_) => false
    case Ok(None) => true
    case Ok(Some(t)) => t !in web.failures
  }

  /** Why a section that does not succeed stops the run. */
  function SectionFailure(s: Section, web: Web): Abort
    requires !SectionSucceeds(s, web)
  {
    match SectionTask(s)
    case Err(e) => SectionFailed(e)
    case Ok(Some(t)) => DownloadFailed(t, web.failures[t])
  }

  /** The download a section asks for, if any. */
  function TaskActions(s: Section): seq<Action>
  {
    match SectionTask(s)
    case Ok(Some(t)) => [FetchMedia(t)]
    case _ => []
  }

  /** One download per marker-bearing section, in section order. */
  function SectionActions(sections: seq<Section>): seq<Action>
  {
    if sections == [] then [] else TaskActions(sections[0]) + SectionActions(sections[1..])
  }

  /** One section issues its download, if any, and goes on or stops according to `SectionSucceeds`. */
  lemma VisitSectionStep(run: Run, s: Section, web: Web)
    requires run.status.Running?
    ensures VisitSection(run, s, web) ==
      Run(run.trace + TaskActions(s),
          if SectionSucceeds(s, web) then Running else Aborted(SectionFailure(s, web)))
  {
  }

  /** The module page is fetched, has its content div, and every section succeeds. */
  predicate ModuleSucceeds(url: string, web: Web)
  {
    url in web.pages && web.pages[url].content.Some? &&
    forall i :: 0 <= i < |web.pages[url].content.value| ==> SectionSucceeds(web.pages[url].content.value[i], web)
  }

  /** The fetch of the module page, then the downloads of its sections. */
  function ModuleActions(url: string, web: Web): seq<Action>
  {
    [Fetch(url)] +
    if url in web.pages && web.pages[url].content.Some? then SectionActions(web.pages[url].content.value) else []
  }

  /** Module after module, in link order. */
  function PlannedActions(urls: seq<string>, web: Web): seq<Action>
  {
    if urls == [] then [] else ModuleActions(urls[0], web) + PlannedActions(urls[1..], web)
  }

  /**
   * The sections of a page are visited in order: the run goes on exactly when
   * every section succeeds, having then issued one download per marker-bearing
   * section, in section order.
   */
  lemma {:induction false} VisitSectionsCompletes(run: Run, sections: seq<Section>, web: Web)
    requires run.status.Running?
    ensures VisitSections(run, sections, web).status.Running? <==>
      forall i :: 0 <= i < |sections| ==> SectionSucceeds(sections[i], web)
    ensures VisitSections(run, sections, web).status.Running? ==>
      VisitSections(run, sections, web).trace == run.trace + SectionActions(sections)
    decreases |sections|
  {
    if sections != [] {
      var next := VisitSection(run, sections[0], web);
      VisitSectionStep(run, sections[0], web);
      if SectionSucceeds(sections[0], web) {
        VisitSectionsCompletes(next, sections[1..], web);
        assert forall i :: 1 <= i < |sections| ==> sections[i] == sections[1..][i - 1];
        AppendAssoc(run.trace, TaskActions(sections[0]), SectionActions(sections[1..]));
      } else {
        AbortedSectionsStay(next, sections[1..], web);
      }
    }
  }

  /**
   * The first section that does not succeed ends the run with its reason:
   * the downloads issued are those of the sections up to and including it,
   * and nothing after it is looked at.
   */
  lemma {:induction false} VisitSectionsAborts(run: Run, sections: seq<Section>, web: Web, k: nat)
    requires run.status.Running?
    requires k < |sections| && !SectionSucceeds(sections[k], web)
    requires forall j :: 0 <= j < k ==> SectionSucceeds(sections[j], web)
    ensures VisitSections(run, sections, web) ==
      Run(run.trace + SectionActions(sections[..k + 1]), Aborted(SectionFailure(sections[k], web)))
    decreases k
  {
    var next := VisitSection(run, sections[0], web);
    VisitSectionStep(run, sections[0], web);
    assert VisitSections(run, sections, web) == VisitSections(next, sections[1..], web);
    if k == 0 {
      AbortedSectionsStay(next, sections[1..], web);
      assert SectionActions(sections[..1]) == TaskActions(sections[0]) + SectionActions([]);
    } else {
      var rest := sections[1..];
      assert next == Run(run.trace + TaskActions(sections[0]), Running);
      assert rest[k - 1] == sections[k];
      assert forall j :: 0 <= j < k - 1 ==> rest[j] == sections[j + 1];
      VisitSectionsAborts(next, rest, web, k - 1);
      SectionActionsOfPrefix(sections, k + 1);
      AppendAssoc(run.trace, TaskActions(sections[0]), SectionActions(rest[..k]));
    }
  }

  lemma SectionActionsOfPrefix(sections: seq<Section>, k: nat)
    requires 0 < k <= |sections|
    ensures SectionActions(sections[..k]) == TaskActions(sections[0]) + SectionActions(sections[1..][..k - 1])
  {
    assert sections[1..][..k - 1] == sections[..k][1..];
  }

  /** A page whose sections never mention the marker yields no download and never fails. */
  lemma {:induction false} MarkerFreeSectionsAreSkipped(run: Run, sections: seq<Section>, web: Web)
    requires forall i :: 0 <= i < |sections| ==> !HasMarker(sections[i].innerHtml)
    ensures VisitSections(run, sections, web) == run
  {
    if sections != [] && run.status.Running? {
      MarkerFreeSectionsAreSkipped(run, sections[1..], web);
    }
  }

  /**
   * The modules are visited in link order: the run goes on exactly when every
   * module succeeds, and has then fetched each page and issued its downloads
   * before moving to the next.
   */
  lemma {:induction false} VisitModulesCompletes(run: Run, urls: seq<string>, web: Web)
    requires run.status.Running?
    ensures VisitModules(run, urls, web).status.Running? <==>
      forall i :: 0 <= i < |urls| ==> ModuleSucceeds(urls[i], web)
    ensures VisitModules(run, urls, web).status.Running? ==>
      VisitModules(run, urls, web).trace == run.trace + PlannedActions(urls, web)
    decreases |urls|
  {
    VisitModulesStatus(run, urls, web);
    if forall i :: 0 <= i < |urls| ==> ModuleSucceeds(urls[i], web) {
      VisitModulesTrace(run, urls, web);
    }
  }

  /** The run goes on after the module loop exactly when every module succeeds. */
  lemma {:induction false} VisitModulesStatus(run: Run, urls: seq<string>, web: Web)
    requires run.status.Running?
    ensures VisitModules(run, urls, web).status.Running? <==>
      forall i :: 0 <= i < |urls| ==> ModuleSucceeds(urls[i], web)
    decreases |urls|
  {
    if urls != [] {
      var next := VisitModule(run, urls[0], web);
      if ModuleSucceeds(urls[0], web) {
        ModuleRunsThrough(run, urls[0], web);
        VisitModulesStatus(next, urls[1..], web);
        assert forall i :: 1 <= i < |urls| ==> urls[i] == urls[1..][i - 1];
      } else {
        ModuleFails(run, urls[0], web);
        AbortedModulesStay(next, urls[1..], web);
      }
    }
  }

  /** When every module succeeds, the module loop performs exactly the planned actions. */
  lemma {:induction false} VisitModulesTrace(run: Run, urls: seq<string>, web: Web)
    requires run.status.Running?
    requires forall i :: 0 <= i < |urls| ==> ModuleSucceeds(urls[i], web)
    ensures VisitModules(run, urls, web) == Run(run.trace + PlannedActions(urls, web), Running)
    decreases |urls|
  {
    if urls != [] {
      ModuleRunsThrough(run, urls[0], web);
      var next := Run(run.trace + ModuleActions(urls[0], web), Running);
      assert forall i :: 0 <= i < |urls| - 1 ==> urls[1..][i] == urls[i + 1];
      VisitModulesTrace(next, urls[1..], web);
      AppendAssoc(run.trace, ModuleActions(urls[0], web), PlannedActions(urls[1..], web));
    }
  }

  lemma AppendAssoc<T>(a: seq<T>, b: seq<T>, c: seq<T>)
    ensures (a + b) + c == a + (b + c)
  {
  }

  /**
   * The first module that does not succeed ends the run: every module before
   * it ran to the end in order, it is visited on top of their actions, and no
   * later module is fetched.
   */
  lemma {:induction false} VisitModulesAborts(run: Run, urls: seq<string>, web: Web, k: nat)
    requires run.status.Running?
    requires k < |urls| && !ModuleSucceeds(urls[k], web)
    requires forall j :: 0 <= j < k ==> ModuleSucceeds(urls[j], web)
    ensures VisitModules(run, urls, web) ==
      VisitModule(Run(run.trace + PlannedActions(urls[..k], web), Running), urls[k], web)
    ensures VisitModules(run, urls, web).status.Aborted?
    decreases k
  {
    var url := urls[0];
    var next := VisitModule(run, url, web);
    assert VisitModules(run, urls, web) == VisitModules(next, urls[1..], web);
    if k == 0 {
      ModuleFails(run, url, web);
      AbortedModulesStay(next, urls[1..], web);
      assert urls[..0] == [];
      assert Run(run.trace + PlannedActions(urls[..0], web), Running) == run;
    } else {
      ModuleRunsThrough(run, url, web);
      var rest := urls[1..];
      VisitModulesAborts(next, rest, web, k - 1);
      PlannedActionsOfPrefix(urls, k, web);
      AppendAssoc(run.trace, ModuleActions(url, web), PlannedActions(rest[..k - 1], web));
    }
  }

  lemma PlannedActionsOfPrefix(urls: seq<string>, k: nat, web: Web)
    requires 0 < k <= |urls|
    ensures PlannedActions(urls[..k], web) == ModuleActions(urls[0], web) + PlannedActions(urls[1..][..k - 1], web)
  {
    assert urls[1..][..k - 1] == urls[..k][1..];
  }

  /** A module that succeeds leaves the run going, having issued its actions. */
  lemma ModuleRunsThrough(run: Run, url: string, web: Web)
    requires run.status.Running? && ModuleSucceeds(url, web)
    ensures VisitModule(run, url, web) == Run(run.trace + ModuleActions(url, web), Running)
  {
    var fetched := run.(trace := run.trace + [Fetch(url)]);
    var sections := web.pages[url].content.value;
    assert VisitModule(run, url, web) == VisitSections(fetched, sections, web);
    VisitSectionsCompletes(fetched, sections, web);
    assert ModuleActions(url, web) == [Fetch(url)] + SectionActions(sections);
  }

  /** A module that does not succeed stops the run. */
  lemma ModuleFails(run: Run, url: string, web: Web)
    requires run.status.Running? && !ModuleSucceeds(url, web)
    ensures VisitModule(run, url, web).status.Aborted?
  {
    if url in web.pages && web.pages[url].content.Some? {
      VisitSectionsCompletes(run.(trace := run.trace + [Fetch(url)]), web.pages[url].content.value, web);
    }
  }

  /**
   * A whole run completes exactly when the index page is fetched, has its
   * wrapper div, every anchor has an `href`, and every module succeeds; it
   * then fetched the index, and then each module page followed by its
   * downloads, in link order.
   */
  lemma RunCompletes(seed: string, web: Web)
    ensures RunFrom(seed, web).status.Running? <==>
      seed in web.pages && web.pages[seed].wrapper.Some? &&
      ModuleLinks(web.pages[seed].wrapper.value).Ok? &&
      forall u :: u in ModuleLinks(web.pages[seed].wrapper.value).value ==> ModuleSucceeds(u, web)
    ensures RunFrom(seed, web).status.Running? ==>
      RunFrom(seed, web).trace == [Fetch(seed)] + PlannedActions(ModuleLinks(web.pages[seed].wrapper.value).value, web)
  {
    if seed in web.pages && web.pages[seed].wrapper.Some? && ModuleLinks(web.pages[seed].wrapper.value).Ok? {
      VisitModulesCompletes(Run([Fetch(seed)], Running), ModuleLinks(web.pages[seed].wrapper.value).value, web);
    }
  }

  /** An anchor without `href` stops the run before any module page is fetched. */
  lemma MissingHrefStopsBeforeAnyModule(seed: string, web: Web, k: nat)
    requires seed in web.pages && web.pages[seed].wrapper.Some?
    requires k < |web.pages[seed].wrapper.value| && "href" !in web.pages[seed].wrapper.value[k]
    requires forall j :: 0 <= j < k ==> "href" in web.pages[seed].wrapper.value[j]
    ensures RunFrom(seed, web) == Run([Fetch(seed)], Aborted(HrefMissing(k)))
  {
  }

  /**
   * An index page with one module link, whose page has two marker-bearing
   * sections, the first well-formed and the second without
   * `voice_encode_fileid`: the first is downloaded, then the run stops on the
   * missing attribute.
   */
  lemma TwoSectionScenario(seed: string, link: string, first: Section, second: Section, web: Web)
    requires seed != link
    requires HasMarker(first.innerHtml) && HasMarker(second.innerHtml)
    requires first.widget.Some? && "name" in first.widget.value && "voice_encode_fileid" in first.widget.value
    requires second.widget.Some? && "name" in second.widget.value && "voice_encode_fileid" !in second.widget.value
    requires web.pages == map[seed := Page(Some([map["href" := link]]), None),
                              link := Page(None, Some([first, second]))]
    requires web.failures == map[]
    ensures RunFrom(seed, web) ==
      Run([Fetch(seed), Fetch(link),
           FetchMedia(Task(DestinationPath(first.widget.value["name"]), MediaUrl(first.widget.value["voice_encode_fileid"])))],
          Aborted(SectionFailed(AttributeMissing("voice_encode_fileid"))))
  {
    var anchors: seq<Attributes> := [map["href" := link]];
    assert anchors[1..] == [];
    assert ModuleLinks(anchors).value == [link];
    var task := Task(DestinationPath(first.widget.value["name"]), MediaUrl(first.widget.value["voice_encode_fileid"]));
    var fetched := Run([Fetch(seed), Fetch(link)], Running);
    var one := VisitSection(fetched, first, web);
    assert one == Run(fetched.trace + [FetchMedia(task)], Running);
    var two := VisitSection(one, second, web);
    assert two == Stop(one, SectionFailed(AttributeMissing("voice_encode_fileid")));
    assert [first, second][1..] == [second];
    assert [second][1..] == [];
    assert VisitSections(fetched, [first, second], web) == VisitSections(one, [second], web);
    assert VisitSections(one, [second], web) == VisitSections(two, [], web);
    var start := Run([Fetch(seed)], Running);
    assert link in web.pages && web.pages[link].content == Some([first, second]);
    assert start.trace + [Fetch(link)] == fetched.trace;
    assert VisitModule(start, link, web) == VisitSections(fetched, [first, second], web);
    assert [link][1..] == [];
    assert VisitModules(start, [link], web) == VisitModules(two, [], web);
  }

  /** The same scenario with the widget named "Lesson<NBSP>One" and identifier "ABC123". */
  lemma LessonOneScenario(seed: string, link: string, html: string, web: Web)
    requires seed != link && HasMarker(html)
    requires web.pages == map[seed := Page(Some([map["href" := link]]), None),
                              link := Page(None, Some([
                                Section(html, Some(map["name" := "Lesson\U{00A0}One", "voice_encode_fileid" := "ABC123"])),
                                Section(html, Some(map["name" := "Lesson\U{00A0}Two"]))]))]
    requires web.failures == map[]
    ensures RunFrom(seed, web) ==
      Run([Fetch(seed), Fetch(link),
           FetchMedia(Task("./download/Lesson_One.mp3", "https://res.wx.qq.com/voice/getvoice?mediaid=ABC123"))],
          Aborted(SectionFailed(AttributeMissing("voice_encode_fileid"))))
  {
    var w1: Attributes := map["name" := "Lesson\U{00A0}One", "voice_encode_fileid" := "ABC123"];
    var w2: Attributes := map["name" := "Lesson\U{00A0}Two"];
    assert w1["name"] == "Lesson\U{00A0}One" && w1["voice_encode_fileid"] == "ABC123";
    assert "voice_encode_fileid" !in w2;
    TwoSectionScenario(seed, link, Section(html, Some(w1)), Section(html, Some(w2)), web);
    LessonOneExample("Lesson\U{00A0}One", "ABC123");
  }
}
