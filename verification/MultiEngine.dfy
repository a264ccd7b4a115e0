/** Secret engines and the label specifications that select the secrets each engine receives. */
module MultiEngine {
  import opened Wrappers
  import opened PathBuilder
  import opened Sequences

  /** The labels of an object: absent (a nil map) or present. */
  type Labels = Option<map<string, string>>

  /** A configured engine. `backend` stands for whatever the engine writes to; two engines may name
      the same one. */
  datatype EngineBackend<S> = EngineBackend(
    backend: S, name: string, pathBuilder: Template, syncLabel: string, key: string, value: string)
  {
    predicate MatchesLabels(labels: Labels) {
      match labels
      case None => false
      case Some(m) => if value == "" then key in m else key in m && m[key] == value
    }
  }

  /** The parts of `s` around its first separator, or `s` alone. */
  function SplitInTwo(s: string, sep: char): (parts: seq<string>)
    ensures |parts| == 1 || |parts| == 2
    ensures |parts| == 1 ==> parts[0] == s && sep !in s
    ensures |parts| == 2 ==> s == parts[0] + [sep] + parts[1] && sep !in parts[0]
  {
    if s == "" then [""]
    else if s[0] == sep then
      assert s == "" + [sep] + s[1..];
      ["", s[1..]]
    else
      var parts := SplitInTwo(s[1..], sep);
      assert s == [s[0]] + s[1..];
      assert |parts| == 2 ==> s == ([s[0]] + parts[0]) + [sep] + parts[1];
      [[s[0]] + parts[0]] + parts[1..]
  }

  function ParseSyncLabel(syncLabel: string): (string, string) {
    var parts := SplitInTwo(syncLabel, '=');
    if |parts| == 2 then (parts[0], parts[1]) else (parts[0], "")
  }

  /** The decision the engine takes for a specification: parse it, then match. */
  predicate Selects(syncLabel: string, labels: Labels) {
    var (key, value) := ParseSyncLabel(syncLabel);
    EngineBackend((), "", [], syncLabel, key, value).MatchesLabels(labels)
  }

  /** The documented meaning of `key` and `key=value`; `key=` asks for the key only. */
  ghost predicate Documented(syncLabel: string, labels: Labels) {
    && labels.Some?
    && var m := labels.value;
       || ('=' !in syncLabel && syncLabel in m)
       || exists k: string, v: string ::
            && syncLabel == k + "=" + v && '=' !in k
            && k in m && (v == "" || m[k] == v)
  }

  /** A string has one reading as a key without `=`, an `=` and the rest. */
  lemma {:induction false} UniqueReading(k: string, v: string, k': string, v': string)
    requires k + "=" + v == k' + "=" + v'
    requires '=' !in k && '=' !in k'
    ensures k == k' && v == v'
  {
    var s := k + "=" + v;
    assert s[..|k|] == k && s[..|k'|] == k';
    FirstEqualsAt(s, |k|);
    FirstEqualsAt(s, |k'|);
    assert s[|k| + 1..] == v && s[|k| + 1..] == v';
  }

  lemma SelectsAsDocumented(syncLabel: string, labels: Labels)
    ensures Selects(syncLabel, labels) <==> Documented(syncLabel, labels)
  {
    var parts := SplitInTwo(syncLabel, '=');
    if |parts| == 2 {
      assert syncLabel == parts[0] + "=" + parts[1];
      assert syncLabel[|parts[0]|] == '=';
      forall k: string, v: string | syncLabel == k + "=" + v && '=' !in k
        ensures k == parts[0] && v == parts[1]
      {
        UniqueReading(k, v, parts[0], parts[1]);
      }
    } else {
      forall k: string, v: string ensures '=' in k + "=" + v {
        assert (k + "=" + v)[|k|] == '=';
      }
    }
  }

  /** The engines that match, in configured order. */
  function FilterEnginesByLabels<S>(engines: seq<EngineBackend<S>>, labels: Labels): seq<EngineBackend<S>> {
    Filter((e: EngineBackend<S>) => e.MatchesLabels(labels), engines)
  }

  method FilterEngines<S>(engines: seq<EngineBackend<S>>, labels: Labels) returns (matched: seq<EngineBackend<S>>)
    ensures matched == FilterEnginesByLabels(engines, labels)
  {
    matched := [];
    for i := 0 to |engines|
      invariant matched == FilterEnginesByLabels(engines[..i], labels)
    {
      assert engines[..i + 1][..i] == engines[..i];
      if engines[i].MatchesLabels(labels) {
        matched := matched + [engines[i]];
      }
    }
    assert engines[..|engines|] == engines;
  }

  // ---------------------------------------------------------------- the second implementation

  /** The position of the first `=`, or the length. */
  function FirstEquals(s: string): (i: nat)
    ensures i <= |s| && '=' !in s[..i]
    ensures i < |s| ==> s[i] == '='
    ensures i < |s| <==> '=' in s
  {
    if s == "" || s[0] == '=' then 0
    else
      var i := 1 + FirstEquals(s[1..]);
      assert s[..i] == [s[0]] + s[1..][..i - 1];
      i
  }

  /** What the loop-based matcher of the test factory decides. An empty specification matches
      nothing, and a specification that begins with `=` is itself the key looked up. */
  predicate MockMatches(labels: map<string, string>, labelSpec: string) {
    var i := FirstEquals(labelSpec);
    var key := if i == |labelSpec| || i == 0 then labelSpec else labelSpec[..i];
    var expected := if i == |labelSpec| then "" else labelSpec[i + 1..];
    labelSpec != "" && key in labels && (expected == "" || labels[key] == expected)
  }

  /** The test factory's matcher: one scan for the first `=`. */
  method MatchesLabel(labels: map<string, string>, labelSpec: string) returns (ok: bool)
    ensures ok == MockMatches(labels, labelSpec)
  {
    if labelSpec == "" {
      return false;
    }
    var key, expectedValue := "", "";
    for i := 0 to |labelSpec|
      invariant '=' !in labelSpec[..i]
      invariant key == "" && expectedValue == ""
    {
      if labelSpec[i] == '=' {
        key, expectedValue := labelSpec[..i], labelSpec[i + 1..];
        FirstEqualsAt(labelSpec, i);
        break;
      }
      assert labelSpec[..i + 1] == labelSpec[..i] + [labelSpec[i]];
    }
    if '=' !in labelSpec {
      assert FirstEquals(labelSpec) == |labelSpec|;
    }
    assert key == "" ==> FirstEquals(labelSpec) == 0 || FirstEquals(labelSpec) == |labelSpec|;
    if key == "" {
      key := labelSpec;
    }
    if key !in labels {
      return false;
    }
    if expectedValue == "" {
      return true;
    }
    return labels[key] == expectedValue;
  }

  lemma {:induction false} FirstEqualsAt(s: string, i: nat)
    requires i < |s| && s[i] == '=' && '=' !in s[..i]
    ensures FirstEquals(s) == i
  {
    if i > 0 {
      assert s[..i][0] == s[0] && s[1..][..i - 1] == s[..i][1..];
      FirstEqualsAt(s[1..], i - 1);
    }
  }

  lemma SplitAtFirstEquals(s: string)
    ensures var i := FirstEquals(s);
            if i == |s| then ParseSyncLabel(s) == (s, "") else ParseSyncLabel(s) == (s[..i], s[i + 1..])
  {
    var parts, i := SplitInTwo(s, '='), FirstEquals(s);
    if |parts| == 2 {
      var n := |parts[0]|;
      assert s[n] == '=' && s[..n] == parts[0] && s[n + 1..] == parts[1];
      FirstEqualsAt(s, n);
    } else {
      assert i == |s|;
    }
  }

  /** The two matchers agree on every specification except the empty one and those that begin with
      `=`; on those, the engine looks up the empty key. */
  lemma MatchersAgreeUnlessKeyEmpty(m: map<string, string>, labelSpec: string)
    requires labelSpec != "" && labelSpec[0] != '='
    ensures Selects(labelSpec, Some(m)) <==> MockMatches(m, labelSpec)
  {
    SplitAtFirstEquals(labelSpec);
  }

  /** On a given label map the two matchers agree on every specification exactly when the map has
      no empty key, no key `=`, and no key `=v` whose value is `v`. */
  lemma MatchersAgreeExactly(m: map<string, string>)
    ensures (forall labelSpec :: Selects(labelSpec, Some(m)) <==> MockMatches(m, labelSpec))
       <==> "" !in m && forall k :: k in m && k != "" && k[0] == '=' ==> k != "=" && m[k] != k[1..]
  {
    SplitAtFirstEquals("");
    forall s: string | s != "" && s[0] == '='
      ensures Selects(s, Some(m)) <==> "" in m && (s[1..] == "" || m[""] == s[1..])
      ensures MockMatches(m, s) <==> s in m && (s[1..] == "" || m[s] == s[1..])
    {
      SplitAtFirstEquals(s);
      FirstEqualsAt(s, 0);
    }
    forall s: string | s != "" && s[0] != '='
      ensures Selects(s, Some(m)) <==> MockMatches(m, s)
    {
      MatchersAgreeUnlessKeyEmpty(m, s);
    }
    if "" in m {
      assert Selects("", Some(m)) && !MockMatches(m, "");
    } else {
      forall k | k in m && k != "" && k[0] == '='
        ensures MockMatches(m, k) <==> !(k != "=" && m[k] != k[1..])
      {
        assert k[1..] == "" <==> k == "=";
      }
    }
  }

  /** On Kubernetes label maps, whose keys are non-empty and without `=`, the two matchers agree. */
  lemma MatchersAgreeOnLabelKeys(m: map<string, string>, labelSpec: string)
    requires forall k :: k in m ==> k != "" && '=' !in k
    ensures Selects(labelSpec, Some(m)) <==> MockMatches(m, labelSpec)
  {
    MatchersAgreeExactly(m);
  }
}
