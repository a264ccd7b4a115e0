/** Path templates: literal text and the three documented variables, with the reserved case of a
    variable that does not exist (it parses, and fails when the template is executed). */
module PathBuilder {
  import opened Wrappers

  datatype Field = Region | Hostname | Username

  datatype Piece = Lit(text: string) | Var(field: Field) | Missing(name: string)

  type Template = seq<Piece>

  /** The text of a template as configured. */
  datatype TemplateText = Blank | Parses(pieces: Template) | Malformed

  datatype PathVariables = PathVariables(region: string, hostname: string, username: string) {
    function Get(f: Field): string {
      match f
      case Region => region
      case Hostname => hostname
      case Username => username
    }

    function Set(f: Field, s: string): PathVariables {
      match f
      case Region => this.(region := s)
      case Hostname => this.(hostname := s)
      case Username => this.(username := s)
    }
  }

  const DEFAULT_TEMPLATE: Template :=
    [Lit("bmc/"), Var(Region), Lit("/"), Var(Hostname), Lit("/"), Var(Username)]

  function NewPathBuilder(text: TemplateText): Result<Template> {
    match text
    case Blank => Ok([])
    case Parses(t) => Ok(t)
    case Malformed => Err("failed to parse path template")
  }

  predicate Buildable(t: Template) {
    forall i :: 0 <= i < |t| ==> !t[i].Missing?
  }

  function PieceText(p: Piece, v: PathVariables): string {
    match p
    case Lit(s) => s
    case Var(f) => v.Get(f)
    case Missing(_) => ""
  }

  function Text(t: Template, v: PathVariables): string {
    if t == [] then "" else PieceText(t[0], v) + Text(t[1..], v)
  }

  const EXECUTE_ERROR := "failed to execute path template"

  function BuildPath(t: Template, v: PathVariables): Result<string> {
    if Buildable(t) then Ok(Text(t, v)) else Err(EXECUTE_ERROR)
  }

  /** Executes the template piece by piece into a buffer and stops at the first piece that cannot
      be evaluated. */
  method Build(t: Template, v: PathVariables) returns (r: Result<string>)
    ensures r == BuildPath(t, v)
  {
    var buf := "";
    for i := 0 to |t|
      invariant Buildable(t[..i])
      invariant buf + Text(t[i..], v) == Text(t, v)
    {
      if t[i].Missing? {
        return Err(EXECUTE_ERROR);
      }
      ghost var done, tail := buf, Text(t[i + 1..], v);
      assert t[i..][0] == t[i] && t[i..][1..] == t[i + 1..];
      assert done + (PieceText(t[i], v) + tail) == (done + PieceText(t[i], v)) + tail;
      assert t[..i + 1] == t[..i] + [t[i]];
      buf := buf + PieceText(t[i], v);
    }
    assert t[..|t|] == t && t[|t|..] == [];
    assert buf + "" == buf;
    return Ok(buf);
  }

  // ---------------------------------------------------------------- inverting a path

  predicate HasField(t: Template) {
    exists i :: 0 <= i < |t| && t[i].Var?
  }

  predicate Mentions(t: Template, f: Field) {
    Var(f) in t
  }

  /** The literal text in front of the first field. */
  function LitRun(t: Template): string {
    if t == [] || !t[0].Lit? then "" else t[0].text + LitRun(t[1..])
  }

  /** The template from its first field on. */
  function AfterRun(t: Template): (rest: Template)
    ensures |rest| <= |t| && rest == t[|t| - |rest|..]
    ensures rest != [] ==> !rest[0].Lit?
  {
    if t == [] || !t[0].Lit? then t else AfterRun(t[1..])
  }

  lemma {:induction false} AfterRunShape(t: Template)
    requires Buildable(t)
    ensures if HasField(t) then AfterRun(t) != [] && AfterRun(t)[0].Var? else AfterRun(t) == []
  {
    if t != [] && t[0].Lit? {
      assert HasField(t[1..]) ==> HasField(t) by {
        if i :| 0 <= i < |t[1..]| && t[1..][i].Var? {
          assert t[i + 1].Var?;
        }
      }
      assert HasField(t) ==> HasField(t[1..]) by {
        if i :| 0 <= i < |t| && t[i].Var? {
          assert t[1..][i - 1].Var?;
        }
      }
      AfterRunShape(t[1..]);
    } else if t != [] {
      assert t[0].Var?;
    }
  }

  /** Between two consecutive fields, the literal text contains a slash. */
  predicate Separated(t: Template) {
    if t == [] then true
    else (t[0].Var? && HasField(t[1..]) ==> '/' in LitRun(t[1..])) && Separated(t[1..])
  }

  function BeforeSlash(s: string): (r: string)
    ensures r <= s && '/' !in r
    ensures |r| < |s| ==> s[|r|] == '/'
  {
    if s == "" || s[0] == '/' then "" else [s[0]] + BeforeSlash(s[1..])
  }

  function Clamp(n: int, s: string): (k: nat)
    ensures k <= |s| && (0 <= n <= |s| ==> k == n)
  {
    if n < 0 then 0 else if n > |s| then |s| else n
  }

  /** Reads the values of the fields of `t`, in order, out of a path: a value ends at the literal
      text that precedes the next slash, and the last value ends at the literal text that closes
      the template. */
  function Invert(t: Template, s: string): seq<string> {
    if t == [] then []
    else if t[0].Var? then
      var run := LitRun(t[1..]);
      var n := Clamp(if HasField(t[1..]) then |BeforeSlash(s)| - |BeforeSlash(run)| else |s| - |run|, s);
      [s[..n]] + Invert(t[1..], s[n..])
    else
      Invert(t[1..], s[Clamp(if t[0].Lit? then |t[0].text| else 0, s)..])
  }

  /** The values of the fields, in the order the template mentions them. */
  function Values(t: Template, v: PathVariables): seq<string> {
    if t == [] then []
    else (if t[0].Var? then [v.Get(t[0].field)] else []) + Values(t[1..], v)
  }

  /** Every field but the last one mentioned has a value without a slash. */
  predicate SlashFreeButLast(t: Template, v: PathVariables) {
    if t == [] then true
    else (t[0].Var? && HasField(t[1..]) ==> '/' !in v.Get(t[0].field)) && SlashFreeButLast(t[1..], v)
  }

  predicate SlashFree(v: PathVariables) {
    '/' !in v.region && '/' !in v.hostname && '/' !in v.username
  }

  lemma {:induction false} BeforeSlashAppend(a: string, b: string)
    ensures BeforeSlash(a + b) == if '/' in a then BeforeSlash(a) else a + BeforeSlash(b)
  {
    if a == "" {
      assert a + b == b;
    } else {
      assert (a + b)[1..] == a[1..] + b;
      BeforeSlashAppend(a[1..], b);
    }
  }

  lemma Associates(a: string, b: string, c: string)
    ensures a + (b + c) == (a + b) + c
  {
  }

  lemma {:induction false} TextAfterRun(t: Template, v: PathVariables)
    requires Buildable(t)
    ensures Text(t, v) == LitRun(t) + Text(AfterRun(t), v)
  {
    if t != [] && t[0].Lit? {
      TextAfterRun(t[1..], v);
      Associates(t[0].text, LitRun(t[1..]), Text(AfterRun(t[1..]), v));
    } else {
      assert "" + Text(t, v) == Text(t, v);
    }
  }

  /** The parser inverts the builder: the field values are read back from the path. */
  lemma {:induction false} InvertText(t: Template, v: PathVariables)
    requires Buildable(t) && Separated(t) && SlashFreeButLast(t, v)
    ensures Invert(t, Text(t, v)) == Values(t, v)
  {
    if t != [] {
      var s := Text(t, v);
      InvertText(t[1..], v);
      if t[0].Var? {
        var val := v.Get(t[0].field);
        var run := LitRun(t[1..]);
        TextAfterRun(t[1..], v);
        AfterRunShape(t[1..]);
        if HasField(t[1..]) {
          BeforeSlashAppend(val, Text(t[1..], v));
          BeforeSlashAppend(run, Text(AfterRun(t[1..]), v));
        }
        assert s[..|val|] == val && s[|val|..] == Text(t[1..], v);
      } else {
        assert s[|t[0].text|..] == Text(t[1..], v);
      }
    }
  }

  lemma {:induction false} EqualValues(t: Template, a: PathVariables, b: PathVariables, f: Field)
    requires Values(t, a) == Values(t, b) && Mentions(t, f)
    ensures a.Get(f) == b.Get(f)
  {
    var va, vb := Values(t[1..], a), Values(t[1..], b);
    if t[0].Var? {
      assert ([a.Get(t[0].field)] + va)[1..] == va;
      assert ([b.Get(t[0].field)] + vb)[1..] == vb;
      assert Values(t, a)[0] == Values(t, b)[0];
    } else {
      assert [] + va == va && [] + vb == vb;
    }
    if t[0] != Var(f) {
      EqualValues(t[1..], a, b, f);
    }
  }

  /** Two value triples that give the same path agree on every field the template mentions. The
      last field mentioned may hold any text. */
  lemma PathInjective(t: Template, a: PathVariables, b: PathVariables)
    requires Separated(t) && SlashFreeButLast(t, a) && SlashFreeButLast(t, b)
    requires BuildPath(t, a).Ok? && BuildPath(t, a) == BuildPath(t, b)
    ensures forall f :: Mentions(t, f) ==> a.Get(f) == b.Get(f)
  {
    InvertText(t, a);
    InvertText(t, b);
    forall f | Mentions(t, f) ensures a.Get(f) == b.Get(f) {
      EqualValues(t, a, b, f);
    }
  }

  /** The default template tells any two triples apart, whatever the username contains. */
  lemma DefaultTemplateInjective(a: PathVariables, b: PathVariables)
    requires '/' !in a.region && '/' !in a.hostname && '/' !in b.region && '/' !in b.hostname
    requires BuildPath(DEFAULT_TEMPLATE, a) == BuildPath(DEFAULT_TEMPLATE, b)
    ensures a == b
  {
    DefaultTemplateShape(a);
    DefaultTemplateShape(b);
    PathInjective(DEFAULT_TEMPLATE, a, b);
    assert Mentions(DEFAULT_TEMPLATE, Region) && Mentions(DEFAULT_TEMPLATE, Hostname)
           && Mentions(DEFAULT_TEMPLATE, Username);
    assert a.Get(Region) == b.Get(Region) && a.Get(Hostname) == b.Get(Hostname) && a.Get(Username) == b.Get(Username);
  }

  lemma DefaultTemplateShape(v: PathVariables)
    ensures Buildable(DEFAULT_TEMPLATE) && Separated(DEFAULT_TEMPLATE)
    ensures '/' !in v.region && '/' !in v.hostname ==> SlashFreeButLast(DEFAULT_TEMPLATE, v)
  {
    var t := DEFAULT_TEMPLATE;
    assert "/"[0] == '/' && !HasField([]);
    var t5 := [t[5]];
    var t4 := [t[4]] + t5;
    var t3 := [t[3]] + t4;
    var t2 := [t[2]] + t3;
    var t1 := [t[1]] + t2;
    assert t5[1..] == [] && t4[1..] == t5 && t3[1..] == t4 && t2[1..] == t3 && t1[1..] == t2 && t[1..] == t1;
    assert LitRun(t5) == "";
    assert LitRun(t4) == "/" + "" == "/";
    assert LitRun(t3) == "";
    assert LitRun(t2) == "/" + "" == "/";
    assert Separated([]);
    assert Separated(t5);
    assert Separated(t4);
    assert Separated(t3);
    assert Separated(t2);
    assert Separated(t1);
    assert Separated(t);
    if '/' !in v.region && '/' !in v.hostname {
      assert SlashFreeButLast([], v);
      assert SlashFreeButLast(t5, v);
      assert SlashFreeButLast(t4, v);
      assert SlashFreeButLast(t3, v);
      assert SlashFreeButLast(t2, v);
      assert SlashFreeButLast(t1, v);
    }
  }

  // ---------------------------------------------------------------- the exact condition

  /** No field is mentioned twice. */
  predicate Once(t: Template) {
    forall i, j :: 0 <= i < j < |t| && t[i].Var? ==> t[i] != t[j]
  }

  ghost predicate TellsApart(t: Template) {
    forall a: PathVariables, b: PathVariables ::
      SlashFree(a) && SlashFree(b) && BuildPath(t, a) == BuildPath(t, b) ==>
        forall f :: Mentions(t, f) ==> a.Get(f) == b.Get(f)
  }

  lemma {:induction false} TextDependsOnMentioned(t: Template, a: PathVariables, b: PathVariables)
    requires forall f :: Mentions(t, f) ==> a.Get(f) == b.Get(f)
    ensures Text(t, a) == Text(t, b)
  {
    if t != [] {
      if t[0].Var? {
        assert Mentions(t, t[0].field);
      }
      assert forall f :: Mentions(t[1..], f) ==> Mentions(t, f);
      TextDependsOnMentioned(t[1..], a, b);
    }
  }

  /** A template with two fields that no slash separates gives one path to two different slash-free
      triples. */
  lemma {:induction false} Colliding(t: Template) returns (a: PathVariables, b: PathVariables, f: Field)
    requires Buildable(t) && Once(t) && !Separated(t)
    ensures SlashFree(a) && SlashFree(b) && Text(t, a) == Text(t, b)
    ensures Mentions(t, f) && a.Get(f) != b.Get(f)
    ensures forall g :: !Mentions(t, g) ==> a.Get(g) == b.Get(g)
  {
    assert forall g :: Mentions(t[1..], g) ==> Mentions(t, g);
    if !Separated(t[1..]) {
      a, b, f := Colliding(t[1..]);
      if t[0].Var? {
        assert !Mentions(t[1..], t[0].field);
      }
    } else {
      a, b, f := CollidingHere(t);
    }
  }

  /** The case in which the first field is not separated from the next one. */
  lemma CollidingHere(t: Template) returns (a: PathVariables, b: PathVariables, f: Field)
    requires Buildable(t) && Once(t)
    requires t != [] && t[0].Var? && HasField(t[1..]) && '/' !in LitRun(t[1..])
    ensures SlashFree(a) && SlashFree(b) && Text(t, a) == Text(t, b)
    ensures Mentions(t, f) && a.Get(f) != b.Get(f)
    ensures forall g :: !Mentions(t, g) ==> a.Get(g) == b.Get(g)
  {
    NextField(t);
    f := t[0].field;
    var g := AfterRun(t[1..])[0].field;
    var wide := "x" + LitRun(t[1..]) + "x";
    a, b := Probe(f, wide), Probe(g, wide);
    ProbesCollide(t, f, g, wide);
    assert |wide| > 1 && a.Get(f) == wide && b.Get(f) == "x";
    forall h | !Mentions(t, h) ensures a.Get(h) == b.Get(h) {
      assert h != f && h != g;
    }
  }

  lemma ProbesCollide(t: Template, f: Field, g: Field, wide: string)
    requires Buildable(t) && Once(t)
    requires t != [] && t[0] == Var(f) && HasField(t[1..]) && wide == "x" + LitRun(t[1..]) + "x"
    requires Buildable(t[1..]) && AfterRun(t[1..]) != [] && AfterRun(t[1..])[0] == Var(g)
    ensures Text(t, Probe(f, wide)) == Text(t, Probe(g, wide))
  {
    NextField(t);
    var a, b, rest := Probe(f, wide), Probe(g, wide), AfterRun(t[1..]);
    TwoFieldsText(t, a, wide, "x");
    TwoFieldsText(t, b, "x", wide);
    TextDependsOnMentioned(rest[1..], a, b);
    Regroup(LitRun(t[1..]), Text(rest[1..], a));
  }

  function Probe(f: Field, s: string): (v: PathVariables)
    ensures v.Get(f) == s
    ensures forall g :: g != f ==> v.Get(g) == "x"
    ensures '/' !in s ==> SlashFree(v)
  {
    PathVariables("x", "x", "x").Set(f, s)
  }

  /** The second field of a template that mentions no field twice differs from the first, and the
      rest mentions neither. */
  lemma NextField(t: Template)
    requires Buildable(t) && Once(t) && t != [] && t[0].Var? && HasField(t[1..])
    ensures Buildable(t[1..])
    ensures var rest := AfterRun(t[1..]);
            && rest != [] && rest[0].Var? && rest[0] in t && t[0].field != rest[0].field
            && forall h :: Mentions(rest[1..], h) ==> h != t[0].field && h != rest[0].field
  {
    assert Buildable(t[1..]);
    AfterRunShape(t[1..]);
    var k := |t| - |AfterRun(t[1..])|;
    assert AfterRun(t[1..]) == t[k..];
    NotAgain(t, 0, k);
    NotAgain(t, k, k);
  }

  lemma NotAgain(t: Template, i: nat, k: nat)
    requires Once(t) && i <= k < |t| && t[i].Var?
    ensures i < k ==> t[i] != t[k]
    ensures !Mentions(t[k..][1..], t[i].field)
  {
    assert t[k..][1..] == t[k + 1..];
    var tail := t[k + 1..];
    forall j | 0 <= j < |tail| ensures tail[j] != t[i] {
      assert tail[j] == t[k + 1 + j];
    }
  }

  /** The path of a template that begins with a field followed by another one. */
  lemma TwoFieldsText(t: Template, v: PathVariables, first: string, second: string)
    requires Buildable(t) && t != [] && t[0].Var? && HasField(t[1..])
    requires v.Get(t[0].field) == first
    requires Buildable(t[1..]) && AfterRun(t[1..]) != [] && AfterRun(t[1..])[0].Var?
    requires v.Get(AfterRun(t[1..])[0].field) == second
    ensures Text(t, v) == first + (LitRun(t[1..]) + (second + Text(AfterRun(t[1..])[1..], v)))
  {
    TextAfterRun(t[1..], v);
  }

  lemma Regroup(run: string, u: string)
    ensures ("x" + run + "x") + (run + ("x" + u)) == "x" + (run + (("x" + run + "x") + u))
  {
  }

  /** A template that mentions no field twice tells slash-free triples apart exactly when it puts a
      slash between every two consecutive fields. */
  lemma TellsApartIffSeparated(t: Template)
    requires Buildable(t) && Once(t)
    ensures TellsApart(t) <==> Separated(t)
  {
    if Separated(t) {
      forall a: PathVariables, b: PathVariables |
        SlashFree(a) && SlashFree(b) && BuildPath(t, a) == BuildPath(t, b)
        ensures forall f :: Mentions(t, f) ==> a.Get(f) == b.Get(f)
      {
        SlashFreeSuffices(t, a);
        SlashFreeSuffices(t, b);
        PathInjective(t, a, b);
      }
    } else {
      var a, b, f := Colliding(t);
      assert BuildPath(t, a) == BuildPath(t, b);
    }
  }

  lemma {:induction false} SlashFreeSuffices(t: Template, v: PathVariables)
    requires SlashFree(v)
    ensures SlashFreeButLast(t, v)
  {
    if t != [] {
      SlashFreeSuffices(t[1..], v);
    }
  }

  /** The template of the path builder's tests that joins its fields with underscores does not tell triples
      apart. */
  lemma UnderscoreTemplateCollides()
    ensures !TellsApart([Lit("bmc-secrets/"), Var(Region), Lit("_"), Var(Hostname), Lit("_"), Var(Username)])
  {
    var t := [Lit("bmc-secrets/"), Var(Region), Lit("_"), Var(Hostname), Lit("_"), Var(Username)];
    var t1 := [Var(Region)] + t[2..];
    assert t[1..] == t1 && t1[1..] == t[2..] && t[2..][1..] == t[3..];
    assert LitRun(t[3..]) == "";
    assert LitRun(t[2..]) == "_" + "" == "_" && '/' !in "_";
    assert t[2..][1].Var?;
    assert !Separated(t1);
    TellsApartIffSeparated(t);
  }

  // ---------------------------------------------------------------- what a template means

  /** Piece by piece: literal text stands for itself and each variable for its own value, and a template
      with a variable that does not exist builds nothing. */
  lemma PieceByPiece(rest: Template, v: PathVariables, text: string, name: string)
    ensures Text([], v) == ""
    ensures Text([Lit(text)] + rest, v) == text + Text(rest, v)
    ensures Text([Var(Region)] + rest, v) == v.region + Text(rest, v)
    ensures Text([Var(Hostname)] + rest, v) == v.hostname + Text(rest, v)
    ensures Text([Var(Username)] + rest, v) == v.username + Text(rest, v)
    ensures BuildPath(rest, v) == if exists p :: p in rest && p.Missing? then Err(EXECUTE_ERROR) else Ok(Text(rest, v))
    ensures BuildPath([Missing(name)] + rest, v).Err?
  {
    assert ([Lit(text)] + rest)[1..] == rest && ([Var(Region)] + rest)[1..] == rest;
    assert ([Var(Hostname)] + rest)[1..] == rest && ([Var(Username)] + rest)[1..] == rest;
    assert ([Missing(name)] + rest)[0] == Missing(name);
  }

  /** A malformed text gives no path builder, a blank one builds the empty path, and any other its template's. */
  lemma TextToPath(text: TemplateText, v: PathVariables)
    ensures NewPathBuilder(text).Ok? <==> text != Malformed
    ensures text == Blank ==> BuildPath(NewPathBuilder(text).value, v) == Ok("")
    ensures forall t :: text == Parses(t) ==> BuildPath(NewPathBuilder(text).value, v) == BuildPath(t, v)
  {
  }

  /** The path that the default template builds. */
  lemma DefaultPath(v: PathVariables)
    ensures BuildPath(DEFAULT_TEMPLATE, v) == Ok("bmc/" + v.region + "/" + v.hostname + "/" + v.username)
  {
    var t := DEFAULT_TEMPLATE;
    PieceByPiece(t[6..], v, "", "");
    PieceByPiece(t[5..][1..], v, "", "");
    assert t[5..] == [Var(Username)] + t[6..] && t[6..] == [];
    assert Text(t[5..], v) == v.username + "" == v.username;
    assert t[4..][1..] == t[5..] && t[3..][1..] == t[4..] && t[2..][1..] == t[3..] && t[1..][1..] == t[2..];
    assert Text(t[4..], v) == "/" + v.username;
    assert Text(t[3..], v) == v.hostname + ("/" + v.username);
    assert Text(t[2..], v) == "/" + (v.hostname + ("/" + v.username));
    assert Text(t[1..], v) == v.region + ("/" + (v.hostname + ("/" + v.username)));
    assert Text(t, v) == "bmc/" + (v.region + ("/" + (v.hostname + ("/" + v.username))));
    FivePieces("bmc/", v.region, "/", v.hostname, "/" + v.username);
    var prefix := "bmc/" + v.region + "/" + v.hostname;
    assert prefix + ("/" + v.username) == prefix + "/" + v.username;
  }

  lemma FivePieces(a: string, b: string, c: string, d: string, e: string)
    ensures a + (b + (c + (d + e))) == a + b + c + d + e
  {
  }
}
