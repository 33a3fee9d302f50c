/**
 * The pure string logic that turns one `section` of a module page into a
 * download task: the `"mpvoice"` marker test, the sanitised file name, the
 * destination path under `./download/` and the media URL.
 */
module Voice {
  import opened Results

  /** The marker whose presence in a section's inner markup announces an audio widget. */
  const Marker: string := "mpvoice"

  /** The character the file name is cleaned of (U+00A0, no-break space). */
  const Nbsp: char := '\U{00A0}'

  const DownloadDir: string := "./download/"
  const Extension: string := ".mp3"
  const MediaEndpoint: string := "https://res.wx.qq.com/voice/getvoice?mediaid="

  /** Attributes of one element, by name. */
  type Attributes = map<string, string>

  /**
   * A `section` element of a module page: its inner markup as text, and the
   * attributes of the first `mpvoice` element found when that markup is
   * re-parsed as a fragment (None when there is none).
   */
  datatype Section = Section(innerHtml: string, widget: Option<Attributes>)

  /** What one media item is fetched from and written to. */
  datatype Task = Task(path: string, url: string)

  /** Why a marker-bearing section could not be turned into a task. */
  datatype ExtractError = WidgetMissing | AttributeMissing(attribute: string)

  predicate OccursAt(s: string, t: string, i: nat)
  {
    i + |t| <= |s| && s[i..i + |t|] == t
  }

  /**
   * `s.find(t)` from position `from` on: the first index at which `t` occurs
   * in `s`, counted in characters (`FindFromSpec` states what it returns).
   */
  function FindFrom(s: string, t: string, from: nat): (r: Option<nat>)
    requires from <= |s|
    ensures r.Some? ==> from <= r.value && OccursAt(s, t, r.value)
    decreases |s| - from
  {
    if OccursAt(s, t, from) then Some(from)
    else if from == |s| then None
    else FindFrom(s, t, from + 1)
  }

  function Find(s: string, t: string): Option<nat>
  {
    FindFrom(s, t, 0)
  }

  /** The cheap pre-filter: does the section's markup mention the marker at all? */
  predicate HasMarker(html: string)
  {
    Find(html, Marker) != None
  }

  /** `name.replace("\u{a0}", "_")` (`SanitizeSpec` states what it returns). */
  function Sanitize(name: string): (r: string)
    ensures |r| == |name|
  {
    if name == [] then []
    else [if name[0] == Nbsp then '_' else name[0]] + Sanitize(name[1..])
  }

  /** The local file a widget named `name` is saved to. */
  function DestinationPath(name: string): (r: string)
    ensures |r| == |DownloadDir| + |name| + |Extension|
    ensures r[..|DownloadDir|] == DownloadDir
  {
    DownloadDir + (Sanitize(name) + Extension)
  }

  /** The remote resource a widget with identifier `id` is fetched from. */
  function MediaUrl(id: string): (r: string)
    ensures |r| == |MediaEndpoint| + |id| && r[..|MediaEndpoint|] == MediaEndpoint && r[|MediaEndpoint|..] == id
  {
    MediaEndpoint + id
  }

  /** Reads back the sanitised name from a destination path, if it has that shape. */
  function NameOfPath(path: string): Option<string>
  {
    if |path| >= |DownloadDir| + |Extension|
       && path[..|DownloadDir|] == DownloadDir
       && path[|path| - |Extension|..] == Extension
    then Some(path[|DownloadDir|..|path| - |Extension|])
    else None
  }

  /** Reads back the media identifier from a media URL, if it has that shape. */
  function MediaIdOfUrl(url: string): Option<string>
  {
    if |url| >= |MediaEndpoint| && url[..|MediaEndpoint|] == MediaEndpoint
    then Some(url[|MediaEndpoint|..])
    else None
  }

  /**
   * One iteration of the section loop: no task for a section without the
   * marker; otherwise the widget and its `name` and `voice_encode_fileid`
   * attributes must all be there, `name` being read first.
   */
  function SectionTask(s: Section): (r: Result<Option<Task>, ExtractError>)
    ensures r == Ok(None) <==> !HasMarker(s.innerHtml)
    ensures r.Err? ==> HasMarker(s.innerHtml) && (r.error == WidgetMissing <==> s.widget.None?)
  {
    if !HasMarker(s.innerHtml) then Ok(None)
    else match s.widget
      case None => Err(WidgetMissing)
      case Some(w) =>
        if "name" !in w then Err(AttributeMissing("name"))
        else if "voice_encode_fileid" !in w then Err(AttributeMissing("voice_encode_fileid"))
        else Ok(Some(Task(DestinationPath(w["name"]), MediaUrl(w["voice_encode_fileid"]))))
  }

  // ---- Properties ----

  /** `FindFrom` returns the first occurrence at or after `from`, and None exactly when there is none. */
  lemma {:induction false} FindFromSpec(s: string, t: string, from: nat)
    requires from <= |s|
    ensures var r := FindFrom(s, t, from);
      (r.Some? ==> from <= r.value && OccursAt(s, t, r.value) && forall j :: from <= j < r.value ==> !OccursAt(s, t, j)) &&
      (r.None? <==> forall j :: from <= j <= |s| ==> !OccursAt(s, t, j))
    decreases |s| - from
  {
    if !OccursAt(s, t, from) && from < |s| {
      FindFromSpec(s, t, from + 1);
    }
  }

  /** The marker test holds exactly when the marker occurs somewhere in the markup. */
  lemma HasMarkerSpec(html: string)
    ensures HasMarker(html) <==> exists i :: 0 <= i <= |html| && OccursAt(html, Marker, i)
  {
    FindFromSpec(html, Marker, 0);
  }

  /** Every no-break space becomes `_`, every other character is kept, and no no-break space is left. */
  lemma {:induction false} SanitizeSpec(name: string)
    ensures |Sanitize(name)| == |name|
    ensures forall i :: 0 <= i < |name| ==> Sanitize(name)[i] == if name[i] == Nbsp then '_' else name[i]
    ensures Nbsp !in Sanitize(name)
  {
    if name != [] {
      SanitizeSpec(name[1..]);
    }
  }

  /** The three parts of `a + (b + c)` can be cut back out of it. */
  lemma ThreeParts(a: string, b: string, c: string)
    ensures var r := a + (b + c);
      r[..|a|] == a && r[|a|..|a| + |b|] == b && r[|a| + |b|..] == c
  {
    var r := a + (b + c);
    forall i | 0 <= i < |b| ensures r[|a|..|a| + |b|][i] == b[i] {
      assert r[|a| + i] == (b + c)[i];
    }
    forall i | 0 <= i < |c| ensures r[|a| + |b|..][i] == c[i] {
      assert r[|a| + |b| + i] == (b + c)[|b| + i];
    }
  }

  /** The path is `./download/`, then the cleaned name, then `.mp3`, and holds no no-break space. */
  lemma DestinationPathShape(name: string)
    ensures var r := DestinationPath(name);
      |r| == |DownloadDir| + |name| + |Extension| &&
      r[..|DownloadDir|] == DownloadDir &&
      r[|r| - |Extension|..] == Extension &&
      r[|DownloadDir|..|r| - |Extension|] == Sanitize(name) &&
      Nbsp !in r
  {
    SanitizeSpec(name);
    var clean := Sanitize(name);
    var r := DestinationPath(name);
    assert r == DownloadDir + (clean + Extension);
    ThreeParts(DownloadDir, clean, Extension);
    assert Nbsp !in DownloadDir && Nbsp !in Extension;
    assert Nbsp !in clean + Extension;
  }

  /**
   * A section without the marker yields nothing; a section with it fails
   * exactly when the widget, its `name` or its `voice_encode_fileid` is
   * missing (a missing `name` being reported first), and otherwise yields the
   * task whose path carries the cleaned name and whose URL carries the
   * identifier.
   */
  lemma SectionTaskCases(s: Section)
    ensures SectionTask(s) == Ok(None) <==> !HasMarker(s.innerHtml)
    ensures SectionTask(s).Err? <==>
      HasMarker(s.innerHtml) &&
      (s.widget.None? || "name" !in s.widget.value || "voice_encode_fileid" !in s.widget.value)
    ensures SectionTask(s) == Err(WidgetMissing) <==> HasMarker(s.innerHtml) && s.widget.None?
    ensures SectionTask(s) == Err(AttributeMissing("name")) <==>
      HasMarker(s.innerHtml) && s.widget.Some? && "name" !in s.widget.value
    ensures SectionTask(s) == Err(AttributeMissing("voice_encode_fileid")) <==>
      HasMarker(s.innerHtml) && s.widget.Some? && "name" in s.widget.value && "voice_encode_fileid" !in s.widget.value
    ensures SectionTask(s).Ok? && SectionTask(s).value.Some? ==>
      s.widget.Some? && "name" in s.widget.value && "voice_encode_fileid" in s.widget.value &&
      NameOfPath(SectionTask(s).value.value.path) == Some(Sanitize(s.widget.value["name"])) &&
      MediaIdOfUrl(SectionTask(s).value.value.url) == Some(s.widget.value["voice_encode_fileid"])
  {
    if HasMarker(s.innerHtml) && s.widget.Some? && "name" in s.widget.value && "voice_encode_fileid" in s.widget.value {
      PathRoundTrip(s.widget.value["name"]);
      UrlRoundTrip(s.widget.value["voice_encode_fileid"]);
    }
  }

  /** Cleaning a name twice changes nothing more than cleaning it once. */
  lemma SanitizeIdempotent(name: string)
    ensures Sanitize(Sanitize(name)) == Sanitize(name)
  {
    SanitizeSpec(name);
    SanitizeKeepsCleanNames(Sanitize(name));
  }

  /** A name without a no-break space is used as it is. */
  lemma SanitizeKeepsCleanNames(name: string)
    requires Nbsp !in name
    ensures Sanitize(name) == name
  {
    SanitizeSpec(name);
  }

  /** The destination path determines the sanitised name it was built from. */
  lemma PathRoundTrip(name: string)
    ensures NameOfPath(DestinationPath(name)) == Some(Sanitize(name))
  {
    DestinationPathShape(name);
  }

  /** The media URL determines the identifier it was built from. */
  lemma UrlRoundTrip(id: string)
    ensures MediaIdOfUrl(MediaUrl(id)) == Some(id)
  {
  }

  /** The media URL ends with `mediaid=` followed by the identifier. */
  lemma UrlEndsWithMediaId(id: string)
    ensures var u := MediaUrl(id); var tail := "mediaid=" + id;
      |tail| <= |u| && u[|u| - |tail|..] == tail
  {
  }

  /** Distinct identifiers give distinct URLs, and names that clean differently give distinct paths. */
  lemma SynthesisInjective(name1: string, name2: string, id1: string, id2: string)
    ensures MediaUrl(id1) == MediaUrl(id2) ==> id1 == id2
    ensures DestinationPath(name1) == DestinationPath(name2) ==> Sanitize(name1) == Sanitize(name2)
  {
    PathRoundTrip(name1);
    PathRoundTrip(name2);
    UrlRoundTrip(id1);
    UrlRoundTrip(id2);
  }

  /** Cleaning works character by character, so it distributes over concatenation. */
  lemma {:induction false} SanitizeConcat(x: string, y: string)
    ensures Sanitize(x + y) == Sanitize(x) + Sanitize(y)
  {
    if x != [] {
      assert (x + y)[1..] == x[1..] + y;
      SanitizeConcat(x[1..], y);
    } else {
      assert x + y == y;
    }
  }

  /** Cleaning replaces a no-break space between two clean parts by an underscore. */
  lemma SanitizeReplacesNbsp(a: string, b: string)
    requires Nbsp !in a && Nbsp !in b
    ensures Sanitize(a + [Nbsp] + b) == a + "_" + b
  {
    SanitizeConcat(a + [Nbsp], b);
    SanitizeConcat(a, [Nbsp]);
    SanitizeKeepsCleanNames(a);
    SanitizeKeepsCleanNames(b);
    assert Sanitize([Nbsp]) == "_";
  }

  /** Example: a widget named "Lesson<NBSP>One" with identifier "ABC123". */
  lemma LessonOneExample(name: string, id: string)
    requires name == "Lesson\U{00A0}One" && id == "ABC123"
    ensures DestinationPath(name) == "./download/Lesson_One.mp3"
    ensures MediaUrl(id) == "https://res.wx.qq.com/voice/getvoice?mediaid=ABC123"
  {
    LessonOneCleaned(name);
    assert DestinationPath(name) == DownloadDir + ("Lesson_One" + Extension);
  }

  /** Example: the no-break space of "Lesson<NBSP>One" becomes `_`. */
  lemma LessonOneCleaned(name: string)
    requires name == "Lesson\U{00A0}One"
    ensures Sanitize(name) == "Lesson_One"
  {
    assert name == "Lesson" + [Nbsp] + "One";
    SanitizeReplacesNbsp("Lesson", "One");
  }
}
