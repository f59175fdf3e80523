/** utils.py: name matching, the file filter of the directory walk and the
    energy unit conversions. */
module Utils {
  import opened Common
  import opened Text

  /** What `pattern_find` returns: `True` (no matchers were given), the first
      matcher found in the name, or `None`. */
  datatype Found = AnyName | Matcher(text: string) | NoMatch

  /** Python truthiness of a `pattern_find` result: a matcher is truthy unless
      it is the empty string. */
  predicate Truthy(f: Found) {
    f.AnyName? || (f.Matcher? && f.text != "")
  }

  /** Position of the first matcher that occurs in `name`; `|matchers|` when
      none does. */
  function FirstContained(name: string, matchers: seq<string>): (k: nat)
    ensures k <= |matchers|
    ensures k < |matchers| ==> Contains(name, matchers[k])
    ensures forall j :: 0 <= j < k ==> !Contains(name, matchers[j])
  {
    if |matchers| == 0 then 0
    else if Contains(name, matchers[0]) then 0
    else 1 + FirstContained(name, matchers[1..])
  }

  /** `pattern_find(name, sources)`; `sources == None` is Python's `None`. */
  function PatternFind(name: string, sources: Option<seq<string>>): (r: Found)
    ensures sources.None? <==> r.AnyName?
    ensures r.Matcher? ==> sources.Some? && Contains(name, r.text)
    ensures r.Matcher? ==> exists k :: 0 <= k < |sources.value| && sources.value[k] == r.text
                                       && forall j :: 0 <= j < k ==> !Contains(name, sources.value[j])
    ensures r.NoMatch? <==> sources.Some? && forall m :: m in sources.value ==> !Contains(name, m)
  {
    match sources
    case None => AnyName
    case Some(ms) =>
      var k := FirstContained(name, ms);
      if k < |ms| then Matcher(ms[k]) else NoMatch
  }

  /** One `(root, _, files)` triple produced by `os.walk`. */
  datatype WalkEntry = WalkEntry(root: string, files: seq<string>)

  /** `os.path.join(root, name)` for a plain file name, Windows style
      (`ntpath`): no separator is added after an empty root, a root ending in
      a separator, or a bare drive such as `C:` (which gives the
      drive-relative `C:name`). */
  function JoinPath(root: string, name: string): string {
    if root == "" || root[|root| - 1] == '\\' || root[|root| - 1] == '/' || (|root| == 2 && root[1] == ':') then root + name
    else root + "\\" + name
  }

  /** The joined paths of the files of one directory that the filter keeps,
      in listing order. */
  function KeptFiles(root: string, files: seq<string>, matchers: Option<seq<string>>): seq<string>
  {
    if |files| == 0 then []
    else
      var name := files[|files| - 1];
      KeptFiles(root, files[..|files| - 1], matchers)
      + (if Truthy(PatternFind(name, matchers)) then [JoinPath(root, name)] else [])
  }

  /** The paths `get_paths_from_dir` returns for a walk. */
  function KeptPaths(walk: seq<WalkEntry>, matchers: Option<seq<string>>): seq<string>
  {
    if |walk| == 0 then []
    else
      var e := walk[|walk| - 1];
      KeptPaths(walk[..|walk| - 1], matchers) + KeptFiles(e.root, e.files, matchers)
  }

  /** The filtering part of `get_paths_from_dir`, over an already walked tree. */
  method GetPathsFromDir(walk: seq<WalkEntry>, matchers: Option<seq<string>>) returns (paths: seq<string>)
    ensures paths == KeptPaths(walk, matchers)
  {
    paths := [];
    for i := 0 to |walk|
      invariant paths == KeptPaths(walk[..i], matchers)
    {
      var e := walk[i];
      ghost var before := paths;
      for j := 0 to |e.files|
        invariant paths == before + KeptFiles(e.root, e.files[..j], matchers)
      {
        var name := e.files[j];
        assert e.files[..j + 1][..j] == e.files[..j];
        if Truthy(PatternFind(name, matchers)) {
          paths := paths + [JoinPath(e.root, name)];
        }
      }
      assert e.files[..|e.files|] == e.files;
      assert walk[..i + 1][..i] == walk[..i];
    }
    assert walk[..|walk|] == walk;
  }

  /** A path is kept exactly when it joins the root with a listed file whose
      `pattern_find` result is truthy. */
  lemma {:induction false} KeptFilesMembership(root: string, files: seq<string>, matchers: Option<seq<string>>, p: string)
    ensures p in KeptFiles(root, files, matchers)
        <==> exists f :: f in files && Truthy(PatternFind(f, matchers)) && p == JoinPath(root, f)
  {
    if |files| > 0 {
      var init := files[..|files| - 1];
      KeptFilesMembership(root, init, matchers, p);
      assert files == init + [files[|files| - 1]];
    }
  }

  /** Without matchers every file is kept: entry `i` is the root joined
      with file `i`. */
  lemma {:induction false} NoMatchersKeepsAll(root: string, files: seq<string>)
    ensures |KeptFiles(root, files, None)| == |files|
    ensures forall i :: 0 <= i < |files| ==> KeptFiles(root, files, None)[i] == JoinPath(root, files[i])
  {
    if |files| > 0 {
      var init := files[..|files| - 1];
      NoMatchersKeepsAll(root, init);
      var kept := KeptFiles(root, files, None);
      assert kept == KeptFiles(root, init, None) + [JoinPath(root, files[|files| - 1])];
      forall i | 0 <= i < |files| ensures kept[i] == JoinPath(root, files[i]) {
        if i < |init| {
          assert kept[i] == KeptFiles(root, init, None)[i] && init[i] == files[i];
        }
      }
    }
  }

  /** When the empty string is the first matcher, `pattern_find` returns `''`
      for every name, which is falsy: nothing is kept, even names that a later
      matcher occurs in. */
  lemma {:induction false} EmptyFirstMatcherKeepsNothing(walk: seq<WalkEntry>, matchers: seq<string>)
    requires |matchers| > 0 && matchers[0] == ""
    ensures KeptPaths(walk, Some(matchers)) == []
  {
    if |walk| > 0 {
      EmptyFirstMatcherKeepsNothing(walk[..|walk| - 1], matchers);
      var e := walk[|walk| - 1];
      EmptyFirstMatcherKeepsNothingIn(e.root, e.files, matchers);
    }
  }

  lemma {:induction false} EmptyFirstMatcherKeepsNothingIn(root: string, files: seq<string>, matchers: seq<string>)
    requires |matchers| > 0 && matchers[0] == ""
    ensures KeptFiles(root, files, Some(matchers)) == []
  {
    if |files| > 0 {
      EmptyFirstMatcherKeepsNothingIn(root, files[..|files| - 1], matchers);
      assert OccursAt(files[|files| - 1], "", 0);
    }
  }

  /** `millijoules_to_joules(val)`. */
  function MillijoulesToJoules(v: real): (r: real)
    ensures r * 1000.0 == v
  {
    v / 1000.0
  }

  /** `joules_to_milliwatts(energy, seconds)`: energy per second; Python raises
      ZeroDivisionError for a zero window. */
  function JoulesToMilliwatts(energy: real, seconds: real): (r: Result<real>)
    ensures seconds == 0.0 <==> r == Err(ZeroDivisionError)
    ensures r.Ok? ==> r.value * seconds == energy
  {
    if seconds == 0.0 then Err(ZeroDivisionError) else Ok(energy / seconds)
  }

  /** `joules_to_milliwatthours(energy)`: one milliwatt-hour is 3.6 joules. */
  function JoulesToMilliwatthours(e: real): (r: real)
    ensures r * 3.6 == e
  {
    e / 3.6
  }

  /** Millijoules to milliwatt-hours through joules is division by 3600. */
  lemma {:induction false} MillijoulesToMilliwatthours(v: real)
    ensures JoulesToMilliwatthours(MillijoulesToJoules(v)) == v / 3600.0
  {
    var j := MillijoulesToJoules(v);
    assert JoulesToMilliwatthours(j) * 3.6 * 1000.0 == v;
  }
}
