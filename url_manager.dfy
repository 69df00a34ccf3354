/**
 * The template-matching part of src/business/web/BlocksUrlManager.php.
 *
 * The request, the view path and the database are inputs; the filesystem
 * probe `matchTemplatePathWithAllowedFileExtensions` is a function from a
 * candidate path to the matched file, if any; the module registry is a
 * function from a module id to a module; `matchEntry` is represented by the
 * template match it finds, if any.
 */
module UrlManager {

  import opened Wrappers

  // ---------------------------------------------------------------------------
  // PHP string primitives.
  // ---------------------------------------------------------------------------

  /** The character mask `'\\/'`. */
  const Separators: set<char> := {'/', '\\'}

  /** `rtrim(s, mask)`: drop the longest trailing run of characters in `mask`. */
  function RTrim(s: string, mask: set<char>): (r: string)
    ensures |r| <= |s| && r == s[..|r|]
    ensures forall i :: |r| <= i < |s| ==> s[i] in mask
    ensures r == [] || r[|r| - 1] !in mask
    decreases |s|
  {
    if s != [] && s[|s| - 1] in mask then RTrim(s[..|s| - 1], mask) else s
  }

  /** `ltrim(s, mask)`: drop the longest leading run of characters in `mask`. */
  function LTrim(s: string, mask: set<char>): (r: string)
    ensures |r| <= |s| && r == s[|s| - |r|..]
    ensures forall i :: 0 <= i < |s| - |r| ==> s[i] in mask
    ensures r == [] || r[0] !in mask
    decreases |s|
  {
    if s != [] && s[0] in mask then LTrim(s[1..], mask) else s
  }

  /**
   * `substr(s, start)` for `0 <= start`, with the `false` it returns past the
   * end already turned into `''` as `matchTemplate` does.
   */
  function Substr(s: string, start: nat): string
  {
    if start <= |s| then s[start..] else ""
  }

  /** `strpos(haystack, needle) !== false`. */
  predicate Contains(haystack: string, needle: string)
  {
    exists i | 0 <= i <= |haystack| - |needle| :: OccursAt(haystack, needle, i)
  }

  predicate OccursAt(haystack: string, needle: string, i: int)
  {
    0 <= i <= |haystack| - |needle| && haystack[i..i + |needle|] == needle
  }

  /** The part of `s` after the last `c`, or all of `s` when it holds no `c`. */
  function AfterLast(s: string, c: char): (r: string)
    ensures c !in r && |r| <= |s| && r == s[|s| - |r|..]
    decreases |s|
  {
    if s == [] then []
    else if s[|s| - 1] == c then []
    else
      var init := s[..|s| - 1];
      var r := AfterLast(init, c) + [s[|s| - 1]];
      assert r == init[|init| - |r| + 1..] + [s[|s| - 1]];
      assert s == init + [s[|s| - 1]];
      r
  }

  /** `AfterLast` stops at a `c`: the suffix it returns is the whole string or follows a `c`. */
  lemma {:induction false} AfterLastStopsAtSeparator(s: string, c: char)
    ensures var r := AfterLast(s, c); |r| < |s| ==> s[|s| - |r| - 1] == c
    decreases |s|
  {
    if s != [] && s[|s| - 1] != c {
      var init := s[..|s| - 1];
      AfterLastStopsAtSeparator(init, c);
      assert |AfterLast(s, c)| == |AfterLast(init, c)| + 1;
    }
  }

  /** `pathinfo(path, PATHINFO_EXTENSION)`. */
  function Extension(path: string): string
  {
    var base := AfterLast(path, '/');
    if '.' in base then AfterLast(base, '.') else ""
  }

  /** `implode('/', segments)`: the segments joined by single slashes. */
  function Implode(segments: seq<string>): string
    requires |segments| > 0
  {
    if |segments| == 1 then segments[0] else segments[0] + "/" + Implode(segments[1..])
  }

  /** `explode('/', s)`. */
  function Explode(s: string): (segments: seq<string>)
    ensures |segments| > 0
    decreases |s|
  {
    if s == [] then [""]
    else
      var rest := Explode(s[1..]);
      if s[0] == '/' then [""] + rest else [[s[0]] + rest[0]] + rest[1..]
  }

  /** No segment holds a `/`. */
  predicate SlashFree(segments: seq<string>)
  {
    forall k :: 0 <= k < |segments| ==> '/' !in segments[k]
  }

  /**
   * `explode` cuts `s` into its maximal slash-free pieces: joining them again
   * with `/` gives back `s`.
   */
  lemma {:induction false} ExplodeImplode(s: string)
    ensures SlashFree(Explode(s)) && Implode(Explode(s)) == s
    decreases |s|
  {
    if s != [] {
      var rest := Explode(s[1..]);
      ExplodeImplode(s[1..]);
      if s[0] == '/' {
        assert ([""] + rest)[1..] == rest;
      } else {
        var segments := [[s[0]] + rest[0]] + rest[1..];
        assert segments[1..] == rest[1..];
        assert s == [s[0]] + s[1..];
      }
    }
  }

  /** And `explode` undoes `implode` on slash-free segments. */
  lemma {:induction false} ImplodeExplode(segments: seq<string>)
    requires |segments| > 0 && SlashFree(segments)
    ensures Explode(Implode(segments)) == segments
    decreases |Implode(segments)|, |segments[0]|
  {
    var s := Implode(segments);
    if segments[0] == [] {
      if |segments| > 1 {
        assert s == "/" + Implode(segments[1..]);
        ImplodeExplode(segments[1..]);
        assert segments == [""] + segments[1..];
      }
    } else {
      var tail := [segments[0][1..]] + segments[1..];
      assert s[0] == segments[0][0] && segments[0] == [s[0]] + tail[0];
      assert tail[1..] == segments[1..];
      assert Implode(tail) == s[1..];
      ImplodeExplode(tail);
      assert segments == [[s[0]] + tail[0]] + tail[1..];
    }
  }

  // ---------------------------------------------------------------------------
  // normalizeTrailingSlash.
  // ---------------------------------------------------------------------------

  /**
   * `normalizeTrailingSlash`: the path with its trailing `/` and `\` removed
   * and one `/` appended.
   */
  function NormalizeTrailingSlash(path: string): (r: string)
    ensures |r| > 0 && r[|r| - 1] == '/'
    ensures |r| > 1 ==> r[|r| - 2] !in Separators
    ensures |r| - 1 <= |path| && r[..|r| - 1] == path[..|r| - 1]
    ensures forall i :: |r| - 1 <= i < |path| ==> path[i] in Separators
  {
    RTrim(path, Separators) + "/"
  }

  /** Trimming a mask from a string that already ends outside it changes nothing. */
  lemma RTrimStable(s: string, mask: set<char>)
    requires s == [] || s[|s| - 1] !in mask
    ensures RTrim(s, mask) == s
  {
  }

  /** Normalising twice is normalising once. */
  lemma {:induction false} NormalizeTrailingSlashIdempotent(path: string)
    ensures NormalizeTrailingSlash(NormalizeTrailingSlash(path)) == NormalizeTrailingSlash(path)
  {
    var t := RTrim(path, Separators);
    assert (t + "/")[..|t|] == t;
    calc {
      RTrim(t + "/", Separators);
      RTrim(t, Separators);
      { RTrimStable(t, Separators); }
      t;
    }
  }

  // ---------------------------------------------------------------------------
  // Hidden segments.
  // ---------------------------------------------------------------------------

  /** A path segment whose name starts with `_`. */
  predicate StartsHidden(segment: string)
  {
    |segment| > 0 && segment[0] == '_'
  }

  /** The test of `matchTemplate`'s segment loop: some segment is hidden. */
  predicate HasHiddenSegment(path: string)
  {
    var segments := Explode(path);
    exists k :: 0 <= k < |segments| && StartsHidden(segments[k])
  }

  /** A `_` at position `i` that opens a segment. */
  predicate HiddenAt(path: string, i: int)
  {
    0 <= i < |path| && path[i] == '_' && (i == 0 || path[i - 1] == '/')
  }

  /** A hidden `_` after the first character, read off the path without its first character. */
  lemma HiddenAtShift(path: string)
    requires path != []
    ensures (exists i :: 1 <= i && HiddenAt(path, i))
            <==> if path[0] == '/' then exists j :: 0 <= j && HiddenAt(path[1..], j)
                 else exists j :: 1 <= j && HiddenAt(path[1..], j)
  {
    var t := path[1..];
    if exists i :: 1 <= i && HiddenAt(path, i) {
      var i :| 1 <= i && HiddenAt(path, i);
      assert HiddenAt(t, i - 1);
    }
    if path[0] == '/' && exists j :: 0 <= j && HiddenAt(t, j) {
      var j :| 0 <= j && HiddenAt(t, j);
      assert HiddenAt(path, j + 1);
    }
    if path[0] != '/' && exists j :: 1 <= j && HiddenAt(t, j) {
      var j :| 1 <= j && HiddenAt(t, j);
      assert HiddenAt(path, j + 1);
    }
  }

  /**
   * Segments that agree, from the second on, with `rest` shifted by `d`: a
   * later segment is hidden exactly when one of the matching `rest` is.
   */
  lemma ShiftedHidden(segments: seq<string>, rest: seq<string>, d: nat)
    requires d <= 1 && |segments| == |rest| + d
    requires forall k :: 1 <= k < |segments| ==> segments[k] == rest[k - d]
    ensures (exists k :: 1 <= k < |segments| && StartsHidden(segments[k]))
            <==> (exists k :: 1 - d <= k < |rest| && StartsHidden(rest[k]))
  {
    if exists k :: 1 <= k < |segments| && StartsHidden(segments[k]) {
      var k :| 1 <= k < |segments| && StartsHidden(segments[k]);
      assert StartsHidden(rest[k - d]);
    }
    if exists k :: 1 - d <= k < |rest| && StartsHidden(rest[k]) {
      var k :| 1 - d <= k < |rest| && StartsHidden(rest[k]);
      assert StartsHidden(segments[k + d]);
    }
  }

  lemma {:induction false} ExplodeHidden(path: string)
    ensures StartsHidden(Explode(path)[0]) <==> HiddenAt(path, 0)
    ensures (exists k :: 1 <= k < |Explode(path)| && StartsHidden(Explode(path)[k]))
            <==> (exists i :: 1 <= i && HiddenAt(path, i))
    decreases |path|
  {
    if path != [] {
      var t := path[1..];
      var rest := Explode(t);
      var segments := Explode(path);
      ExplodeHidden(t);
      HiddenAtShift(path);
      if path[0] == '/' {
        assert segments == [""] + rest;
        ShiftedHidden(segments, rest, 1);
        assert (exists j :: 0 <= j && HiddenAt(t, j)) <==> HiddenAt(t, 0) || exists j :: 1 <= j && HiddenAt(t, j);
      } else {
        assert segments == [[path[0]] + rest[0]] + rest[1..];
        ShiftedHidden(segments, rest, 0);
      }
    }
  }

  /**
   * The segment test, read on characters: some `_` stands at the start of the
   * path or right after a `/`.
   */
  lemma HiddenSegmentChars(path: string)
    ensures HasHiddenSegment(path) <==> exists i :: HiddenAt(path, i)
  {
    ExplodeHidden(path);
    var segments := Explode(path);
    if HasHiddenSegment(path) {
      var k :| 0 <= k < |segments| && StartsHidden(segments[k]);
      if k == 0 { assert HiddenAt(path, 0); }
    }
    if exists i :: HiddenAt(path, i) {
      var i :| HiddenAt(path, i);
      if i == 0 { assert StartsHidden(segments[0]); }
    }
  }

  // ---------------------------------------------------------------------------
  // matchTemplate, stated as a function of its inputs.
  // ---------------------------------------------------------------------------

  datatype RequestType = Site | ControlPanel

  /** What `matchTemplate` and `processTemplateMatching` read from the request. */
  datatype Request = Request(serverName: string, scriptUrl: string, pathInfo: string,
                             kind: RequestType, routeParam: Option<string>)

  datatype MatchType = TemplateMatchType | EntryMatchType

  /** `setTemplateMatch`'s `TemplateMatch`. */
  datatype TemplateMatch = TemplateMatch(path: string, matchRequest: string, matchType: MatchType, extension: string)

  datatype Module = Module(id: string)

  /** The mask `'.' . $extension` that `rtrim` is given. */
  function ExtensionMask(extension: string): set<char>
  {
    {'.'} + set c | c in extension
  }

  /** The request's extension trimmed off as `matchTemplate` does it: `rtrim` with a mask. */
  function TrimExtension(s: string, extension: Option<string>): string
  {
    if extension.Some? then RTrim(s, ExtensionMask(extension.value)) else s
  }

  /** PHP `$moduleName == null`: no module name, or an empty one. */
  predicate NoModuleName(moduleName: Option<string>)
  {
    moduleName.None? || moduleName.value == ""
  }

  /** The locals of `matchTemplate` once the slashes are fixed. */
  datatype Paths = Paths(moduleName: Option<string>, templatePath: string, requestPath: string, matchPattern: string)

  /** The pattern recorded as the match request: the full request URL, trimmed. */
  function MatchPattern(request: Request, extension: Option<string>): string
  {
    TrimExtension(RTrim(request.serverName + request.scriptUrl + "/" + request.pathInfo, {'/'}), extension)
  }

  /** The module name: the current module's id, on control-panel requests only. */
  function ModuleName(request: Request, mod: Option<Module>): Option<string>
  {
    if request.kind == ControlPanel && mod.Some? then Some(mod.value.id) else None
  }

  /** The request path before its slashes are fixed: the module's own prefix cut off. */
  function RawRequestPath(path: string, extension: Option<string>, request: Request, mod: Option<Module>): string
  {
    var tempPath := TrimExtension(path, extension);
    var moduleName := ModuleName(request, mod);
    if moduleName.Some? then Substr(tempPath, |moduleName.value| + 1) else tempPath
  }

  /**
   * The module name, template path, request path and match pattern
   * `matchTemplate` has computed when it reaches the hidden-segment check.
   */
  function Prepare(path: string, extension: Option<string>, request: Request,
                   mod: Option<Module>, viewPath: string): Paths
  {
    var raw := RawRequestPath(path, extension, request, mod);
    var templatePath := NormalizeTrailingSlash(viewPath);
    if raw != "" then
      Paths(ModuleName(request, mod), NormalizeTrailingSlash(templatePath), LTrim(raw, Separators),
            MatchPattern(request, extension))
    else
      Paths(ModuleName(request, mod), RTrim(templatePath, Separators), raw, MatchPattern(request, extension))
  }

  /** The path probed first: the request path as a file under the template path. */
  function DirectProbe(ps: Paths): string
  {
    ps.templatePath + ps.requestPath
  }

  /** The path probed second: the request path as a folder holding `index`. */
  function IndexProbe(ps: Paths): string
  {
    (RTrim(ps.templatePath, Separators) + "/") + (NormalizeTrailingSlash(ps.requestPath) + "index")
  }

  /** The template path recorded for a direct hit: the module name, a `/`, the request path. */
  function DirectMatchPath(ps: Paths): string
  {
    if NoModuleName(ps.moduleName) then ps.requestPath else ps.moduleName.value + "/" + ps.requestPath
  }

  /** The template path recorded for an index hit: the module name glued to the path, no `/`. */
  function IndexMatchPath(ps: Paths): string
  {
    var requestPath := NormalizeTrailingSlash(ps.requestPath) + "index";
    if NoModuleName(ps.moduleName) then requestPath else ps.moduleName.value + requestPath
  }

  /**
   * What `matchTemplate` records, given the prepared paths: nothing when a
   * segment is hidden; otherwise the first of the direct and the index
   * candidates the probe finds a file for.
   */
  function TemplateOutcome(ps: Paths, probe: string -> Option<string>): (r: Option<TemplateMatch>)
    ensures HasHiddenSegment(ps.requestPath) ==> r.None?
    ensures !HasHiddenSegment(ps.requestPath) && probe(DirectProbe(ps)).Some? ==>
              r == Some(TemplateMatch(DirectMatchPath(ps), ps.matchPattern, TemplateMatchType,
                                      Extension(probe(DirectProbe(ps)).value)))
    ensures !HasHiddenSegment(ps.requestPath) && probe(DirectProbe(ps)).None? && probe(IndexProbe(ps)).Some? ==>
              r == Some(TemplateMatch(IndexMatchPath(ps), ps.matchPattern, TemplateMatchType,
                                      Extension(probe(IndexProbe(ps)).value)))
    ensures probe(DirectProbe(ps)).None? && probe(IndexProbe(ps)).None? ==> r.None?
  {
    if HasHiddenSegment(ps.requestPath) then None
    else if probe(DirectProbe(ps)).Some? then
      Some(TemplateMatch(DirectMatchPath(ps), ps.matchPattern, TemplateMatchType,
                         Extension(probe(DirectProbe(ps)).value)))
    else if probe(IndexProbe(ps)).Some? then
      Some(TemplateMatch(IndexMatchPath(ps), ps.matchPattern, TemplateMatchType,
                         Extension(probe(IndexProbe(ps)).value)))
    else None
  }

  /**
   * The slash fixing: the request path never starts with a separator; when
   * the untrimmed request path is non-empty the template path ends in exactly
   * one `/`, and otherwise in no separator at all.
   */
  lemma PrepareSlashes(path: string, extension: Option<string>, request: Request,
                       mod: Option<Module>, viewPath: string)
    ensures var ps := Prepare(path, extension, request, mod, viewPath);
      && (ps.requestPath == [] || ps.requestPath[0] !in Separators)
      && (RawRequestPath(path, extension, request, mod) != [] ==>
            |ps.templatePath| > 0 && ps.templatePath[|ps.templatePath| - 1] == '/'
            && (|ps.templatePath| > 1 ==> ps.templatePath[|ps.templatePath| - 2] !in Separators))
      && (RawRequestPath(path, extension, request, mod) == [] ==>
            ps.requestPath == []
            && (ps.templatePath == [] || ps.templatePath[|ps.templatePath| - 1] !in Separators))
  {
  }

  /**
   * The extension is trimmed as a set of characters, so a trailing run of
   * them goes too: `email.html` with extension `html` becomes `emai`.
   */
  lemma ExtensionTrimEatsName()
    ensures TrimExtension("email.html", Some("html")) == "emai"
  {
    var mask := HtmlMask();
    RTrimLast("email.html", "email.htm", mask);
    RTrimLast("email.htm", "email.ht", mask);
    RTrimLast("email.ht", "email.h", mask);
    RTrimLast("email.h", "email.", mask);
    RTrimLast("email.", "email", mask);
    RTrimLast("email", "emai", mask);
    assert "emai"[3] !in mask;
  }

  /** A name that ends outside the mask keeps all of itself: `index.html` becomes `index`. */
  lemma ExtensionTrimStopsAtName()
    ensures TrimExtension("index.html", Some("html")) == "index"
  {
    var mask := HtmlMask();
    RTrimLast("index.html", "index.htm", mask);
    RTrimLast("index.htm", "index.ht", mask);
    RTrimLast("index.ht", "index.h", mask);
    RTrimLast("index.h", "index.", mask);
    RTrimLast("index.", "index", mask);
    assert "index"[4] !in mask;
  }

  /** The mask `rtrim` receives for the extension `html`. */
  lemma HtmlMask() returns (mask: set<char>)
    ensures mask == ExtensionMask("html") == {'.', 'h', 't', 'm', 'l'}
  {
    mask := ExtensionMask("html");
    assert "html"[0] == 'h' && "html"[1] == 't' && "html"[2] == 'm' && "html"[3] == 'l';
  }

  /** One step of `rtrim`: a last character in the mask goes. */
  lemma RTrimLast(s: string, init: string, mask: set<char>)
    requires |s| == |init| + 1 && s[..|init|] == init && s[|init|] in mask
    ensures RTrim(s, mask) == RTrim(init, mask)
  {
  }

  /** `processTemplateMatching`'s gii test: a gii module, or `gii` inside the `r` parameter. */
  predicate IsGiiRequest(mod: Option<Module>, request: Request)
  {
    (mod.Some? && mod.value.id == "gii")
    || (request.routeParam.Some? && Contains(request.routeParam.value, "gii"))
  }

  /** `matchRoute`: routes are switched off, so it never matches. */
  function MatchRoute(): bool
  {
    false
  }

  /** The module `getCurrentModule` holds after it has run once more. */
  function ModuleAfterLookup(current: Option<Module>, segments: Option<seq<string>>,
                             getModule: string -> Option<Module>): Option<Module>
  {
    if current.Some? then current
    else if segments.Some? && |segments.value| > 0 then getModule(segments.value[0])
    else None
  }

  /**
   * The segment loop of `matchTemplate`: the request path is split on `/`
   * and the scan stops at the first segment starting with `_`.
   */
  method HiddenSegmentScan(requestPath: string) returns (hidden: bool)
    ensures hidden <==> HasHiddenSegment(requestPath)
  {
    var segments := Explode(requestPath);
    var i := 0;
    while i < |segments|
      invariant 0 <= i <= |segments|
      invariant forall k :: 0 <= k < i ==> !StartsHidden(segments[k])
    {
      if |segments[i]| > 0 && segments[i][0] == '_' {
        assert StartsHidden(segments[i]);
        return true;
      }
      i := i + 1;
    }
    return false;
  }

  // ---------------------------------------------------------------------------
  // The URL manager.
  // ---------------------------------------------------------------------------

  class BlocksUrlManager {
    var path: string
    var pathSegments: Option<seq<string>>
    var templateMatch: Option<TemplateMatch>
    var requestExtension: Option<string>
    var currentModule: Option<Module>

    /** `init`: the path, its segments and its extension copied from the request. */
    constructor (pathInfo: string, segments: seq<string>, extension: Option<string>)
      ensures path == pathInfo && pathSegments == Some(segments) && requestExtension == extension
      ensures templateMatch == None && currentModule == None
    {
      path := pathInfo;
      pathSegments := Some(segments);
      requestExtension := extension;
      templateMatch := None;
      currentModule := None;
    }

    /**
     * `getCurrentModule`: the first module found for path segment 0 is kept
     * for good; while none is found, the lookup is repeated on every call.
     */
    method GetCurrentModule(getModule: string -> Option<Module>) returns (m: Option<Module>)
      modifies this`currentModule
      ensures old(currentModule).Some? ==> currentModule == old(currentModule)
      ensures pathSegments.None? || pathSegments.value == [] ==> currentModule == old(currentModule)
      ensures currentModule == ModuleAfterLookup(old(currentModule), pathSegments, getModule)
      ensures m == currentModule
    {
      if currentModule.None? {
        if pathSegments.Some? && |pathSegments.value| > 0 {
          var mod := getModule(pathSegments.value[0]);
          if mod.Some? {
            currentModule := mod;
          }
        }
      }
      m := currentModule;
    }

    /**
     * `matchTemplate`. Records a template match and answers true on the first
     * candidate the probe finds; answers false, recording nothing, when a
     * segment of the request path is hidden or neither candidate exists.
     */
    method MatchTemplate(request: Request, viewPath: string, probe: string -> Option<string>)
      returns (found: bool)
      modifies this`templateMatch
      ensures var outcome := TemplateOutcome(Prepare(path, requestExtension, request, currentModule, viewPath), probe);
        && found == outcome.Some?
        && templateMatch == (if found then outcome else old(templateMatch))
    {
      var moduleName: Option<string> := None;
      var templatePath := NormalizeTrailingSlash(viewPath);
      var pathMatchPattern := RTrim(request.serverName + request.scriptUrl + "/" + request.pathInfo, {'/'});
      var tempPath := path;

      if requestExtension.Some? {
        pathMatchPattern := RTrim(pathMatchPattern, ExtensionMask(requestExtension.value));
        tempPath := RTrim(tempPath, ExtensionMask(requestExtension.value));
      }
      assert pathMatchPattern == MatchPattern(request, requestExtension);

      var requestPath;
      if request.kind == ControlPanel {
        if currentModule.Some? {
          moduleName := Some(currentModule.value.id);
          requestPath := Substr(tempPath, |moduleName.value| + 1);
        } else {
          requestPath := tempPath;
        }
      } else {
        requestPath := tempPath;
      }
      assert moduleName == ModuleName(request, currentModule);
      assert requestPath == RawRequestPath(path, requestExtension, request, currentModule);

      if requestPath != "" {
        requestPath := LTrim(requestPath, Separators);
        templatePath := NormalizeTrailingSlash(templatePath);
      } else {
        templatePath := RTrim(templatePath, Separators);
      }

      var ps := Paths(moduleName, templatePath, requestPath, pathMatchPattern);
      assert ps == Prepare(path, requestExtension, request, currentModule, viewPath);
      found := ProbeTemplates(ps, probe);
    }

    /**
     * The second half of `matchTemplate`, from the prepared paths on: give up
     * on a hidden segment, then probe the request path as a file and as a
     * folder holding `index`, and record the first hit.
     */
    method ProbeTemplates(ps: Paths, probe: string -> Option<string>) returns (found: bool)
      modifies this`templateMatch
      ensures found == TemplateOutcome(ps, probe).Some?
      ensures templateMatch == if found then TemplateOutcome(ps, probe) else old(templateMatch)
    {
      var hidden := HiddenSegmentScan(ps.requestPath);
      if hidden {
        return false;
      }

      var fullMatchPath := probe(ps.templatePath + ps.requestPath);
      if fullMatchPath.Some? {
        var matchPath := if NoModuleName(ps.moduleName) then ps.requestPath else ps.moduleName.value + "/" + ps.requestPath;
        templateMatch := Some(TemplateMatch(matchPath, ps.matchPattern, TemplateMatchType, Extension(fullMatchPath.value)));
        return true;
      }

      var requestPath := NormalizeTrailingSlash(ps.requestPath) + "index";
      var templatePath := RTrim(ps.templatePath, Separators) + "/";
      fullMatchPath := probe(templatePath + requestPath);
      if fullMatchPath.Some? {
        var matchPath := if NoModuleName(ps.moduleName) then requestPath else ps.moduleName.value + requestPath;
        templateMatch := Some(TemplateMatch(matchPath, ps.matchPattern, TemplateMatchType, Extension(fullMatchPath.value)));
        return true;
      }

      return false;
    }

    /**
     * `processTemplateMatching`. Gii requests are left alone. A site request
     * with an installed database first tries `matchEntry` (`entry` is what it
     * finds); when it finds nothing, and `matchRoute` does not match (it never
     * does), `matchTemplate` runs.
     */
    method ProcessTemplateMatching(request: Request, dbInstalled: bool, entry: Option<TemplateMatch>,
                                   getModule: string -> Option<Module>, viewPath: string,
                                   probe: string -> Option<string>)
      modifies this`templateMatch, this`currentModule
      ensures currentModule == ModuleAfterLookup(old(currentModule), pathSegments, getModule)
      ensures IsGiiRequest(currentModule, request) ==> templateMatch == old(templateMatch)
      ensures !IsGiiRequest(currentModule, request) && request.kind == Site && dbInstalled && entry.Some? ==>
                templateMatch == entry
      ensures !IsGiiRequest(currentModule, request) && !(request.kind == Site && dbInstalled && entry.Some?) ==>
                var outcome := TemplateOutcome(Prepare(path, requestExtension, request, currentModule, viewPath), probe);
                templateMatch == (if outcome.Some? then outcome else old(templateMatch))
    {
      var mod := GetCurrentModule(getModule);
      var giiModule := false;
      if mod.Some? {
        mod := GetCurrentModule(getModule);
        giiModule := mod.value.id == "gii";
      }
      if giiModule || (request.routeParam.Some? && Contains(request.routeParam.value, "gii")) {
        return;
      }

      var matchFound := false;
      if request.kind == Site {
        if dbInstalled {
          if entry.Some? {
            templateMatch := entry;
            matchFound := true;
          }
        }
      }

      if !matchFound {
        if !MatchRoute() {
          var _ := MatchTemplate(request, viewPath, probe);
        }
      }
    }
  }
}
