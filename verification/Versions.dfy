/** internal/upgrade/upgrade.go: writing a version's images into the compose file and
    reading the version back from it. */
module Versions {
  import opened Text
  import opened ComposeRewrite
  import opened ComposeDoc

  datatype VersionInfo = VersionInfo(postgres: string, kong: string, studio: string)

  type Registry = map<string, VersionInfo>

  const POSTGRES := "supabase/postgres"

  const V1_23 := VersionInfo(POSTGRES + ":15.1.0.117", "kong:2.8.1", "supabase/studio:20231123-64a766a")
  const V1_24 := VersionInfo(POSTGRES + ":15.1.1.118", "kong:2.8.1", "supabase/studio:20240101-a1b2c3d")

  const REGISTRY: Registry := map["1.23.0" := V1_23, "1.24.0" := V1_24]

  // ---------- writing ----------

  function ReplaceText(content: string, svc: string, image: string): string {
    Join(Rewrite(Split(content), svc, image, false))
  }

  function UpdatedCompose(content: string, info: VersionInfo): string {
    ReplaceText(ReplaceText(ReplaceText(content, "postgres", info.postgres), "kong", info.kong), "studio", info.studio)
  }

  method UpdateDockerCompose(content: string, info: VersionInfo) returns (updated: string)
    ensures updated == UpdatedCompose(content, info)
  {
    updated := ReplaceImageVersion(content, "postgres", info.postgres);
    updated := ReplaceImageVersion(updated, "kong", info.kong);
    updated := ReplaceImageVersion(updated, "studio", info.studio);
  }

  // ---------- reading ----------

  predicate Marked(line: string) { IsImage(line) && Contains(line, POSTGRES) }

  /** The versions whose postgres image the line contains. */
  function Candidates(line: string, registry: Registry): set<string> {
    set v | v in registry && Contains(line, registry[v].postgres)
  }

  /** Some answer the map's unordered iteration allows: a version of the first marked
      line that has any. */
  ghost predicate IsCurrentVersion(lines: seq<string>, registry: Registry, r: Option<string>) {
    match r
    case None => forall i | 0 <= i < |lines| && Marked(lines[i]) :: Candidates(lines[i], registry) == {}
    case Some(v) =>
      exists i | 0 <= i < |lines| :: IsFirstNaming(lines, registry, v, i)
  }

  predicate IsFirstNaming(lines: seq<string>, registry: Registry, v: string, i: int)
    requires 0 <= i < |lines|
  {
    Marked(lines[i]) && v in Candidates(lines[i], registry) &&
    forall j | 0 <= j < i && Marked(lines[j]) :: Candidates(lines[j], registry) == {}
  }

  method GetCurrentVersion(content: string, registry: Registry) returns (r: Option<string>)
    ensures IsCurrentVersion(Split(content), registry, r)
  {
    var lines := Split(content);
    for i := 0 to |lines|
      invariant forall j | 0 <= j < i && Marked(lines[j]) :: Candidates(lines[j], registry) == {}
    {
      var line := lines[i];
      if Marked(line) {
        r := AnyCandidate(line, registry);
        if r.Some? {
          assert IsFirstNaming(lines, registry, r.value, i);
          return;
        }
      }
    }
    r := None;
  }

  method AnyCandidate(line: string, registry: Registry) returns (r: Option<string>)
    ensures if r.Some? then r.value in Candidates(line, registry) else Candidates(line, registry) == {}
  {
    var rest := registry.Keys;
    while rest != {}
      invariant rest <= registry.Keys
      invariant forall v | v in registry && v !in rest :: !Contains(line, registry[v].postgres)
      decreases |rest|
    {
      var v :| v in rest;
      if Contains(line, registry[v].postgres) { return Some(v); }
      rest := rest - {v};
    }
    r := None;
  }

  // ---------- what the three scans do ----------

  /** What the registry must be like: postgres images carry the marker and no image line
      made of one contains another; other images carry no marker. */
  ghost predicate Distinguishable(registry: Registry) {
    && (forall v | v in registry :: Contains(registry[v].postgres, POSTGRES) && OneLineInfo(registry[v]))
    && (forall v, w, indent {:trigger ImageLine(indent, registry[v].postgres), registry[w].postgres} ::
         v in registry && w in registry && v != w && AllBlank(indent) ==>
         !Contains(ImageLine(indent, registry[v].postgres), registry[w].postgres))
    && (forall v, indent {:trigger ImageLine(indent, registry[v].kong)} :: v in registry && AllBlank(indent) ==>
         !Contains(ImageLine(indent, registry[v].kong), POSTGRES))
    && (forall v, indent {:trigger ImageLine(indent, registry[v].studio)} :: v in registry && AllBlank(indent) ==>
         !Contains(ImageLine(indent, registry[v].studio), POSTGRES))
  }

  predicate OneLineInfo(info: VersionInfo) {
    NoNewline(info.postgres) && NoNewline(info.kong) && NoNewline(info.studio)
  }

  function ImageFor(svc: string, info: VersionInfo): string {
    if svc == "postgres" then info.postgres else if svc == "kong" then info.kong else info.studio
  }

  /** The last of the three scans that is inside its service at this image line. */
  function LastReaching(s: Service): (svc: Option<string>)
    ensures svc in {None, Some("postgres"), Some("kong"), Some("studio")}
  {
    if Reached(s, "studio") then Some("studio")
    else if Reached(s, "kong") then Some("kong")
    else if Reached(s, "postgres") then Some("postgres")
    else None
  }

  /** A service after the three scans. */
  function Rescanned(s: Service, info: VersionInfo): Service {
    if s.image.None? || LastReaching(s).None? then s
    else s.(image := Some(NewImage(s.image.value, ImageFor(LastReaching(s).value, info))))
  }

  function RescannedDoc(d: Doc, info: VersionInfo): Doc {
    d.(services := MapServices(d.services, (s: Service) => Rescanned(s, info)))
  }

  /** The structured upgrade of one service. */
  function Upgraded(s: Service, info: VersionInfo): Service {
    if s.image.Some? && s.name in {"postgres", "kong", "studio"}
    then s.(image := Some(NewImage(s.image.value, ImageFor(s.name, info))))
    else s
  }

  function UpgradedDoc(d: Doc, info: VersionInfo): Doc {
    d.(services := MapServices(d.services, (s: Service) => Upgraded(s, info)))
  }

  lemma {:induction false} MapTwice(ss: seq<Service>, f: Service -> Service, g: Service -> Service, h: Service -> Service)
    requires forall s :: g(f(s)) == h(s)
    ensures MapServices(MapServices(ss, f), g) == MapServices(ss, h)
  {
    if ss == [] {
    } else {
      MapTwice(ss[1..], f, g, h);
    }
  }

  lemma {:induction false} ThreeInOne(d: Doc, info: VersionInfo)
    ensures RewriteDoc(RewriteDoc(RewriteDoc(d, "postgres", info.postgres), "kong", info.kong), "studio", info.studio) ==
            RescannedDoc(d, info)
  {
    var f := (s: Service) => Rewritten(s, "postgres", info.postgres);
    var g := (s: Service) => Rewritten(s, "kong", info.kong);
    var h := (s: Service) => Rewritten(s, "studio", info.studio);
    var both := (s: Service) => g(f(s));
    var all := (s: Service) => Rescanned(s, info);
    MapTwice(d.services, f, g, both);
    forall s ensures h(both(s)) == all(s) { ThreeOnService(s, info); }
    MapTwice(d.services, both, h, all);
  }

  lemma ThreeOnService(s: Service, info: VersionInfo)
    ensures var s1 := Rewritten(s, "postgres", info.postgres);
            var s2 := Rewritten(s1, "kong", info.kong);
            Rewritten(s2, "studio", info.studio) == Rescanned(s, info)
  {
    var s1 := Rewritten(s, "postgres", info.postgres);
    SameReach(s, s1, "kong");
    SameReach(s, s1, "studio");
    SameReach(s1, Rewritten(s1, "kong", info.kong), "studio");
  }

  lemma SameReach(s: Service, t: Service, svc: string)
    requires t.name == s.name && t.before == s.before
    ensures Reached(t, svc) == Reached(s, svc)
  {}

  /** What the three scans do to the text of any file of the layout. */
  lemma {:induction false} ThreeScans(d: Doc, info: VersionInfo)
    requires HasText(d) && OneLineInfo(info)
    ensures UpdatedCompose(Join(DocLines(d)), info) == Join(DocLines(RescannedDoc(d, info)))
    ensures HasText(RescannedDoc(d, info))
  {
    OneScan(d, "postgres", info.postgres);
    var d1 := RewriteDoc(d, "postgres", info.postgres);
    OneScan(d1, "kong", info.kong);
    var d2 := RewriteDoc(d1, "kong", info.kong);
    OneScan(d2, "studio", info.studio);
    ThreeInOne(d, info);
  }

  lemma {:induction false} OneScan(d: Doc, svc: string, image: string)
    requires HasText(d) && Plain(svc) && NoNewline(image)
    ensures ReplaceText(Join(DocLines(d)), svc, image) == Join(DocLines(RewriteDoc(d, svc, image)))
    ensures HasText(RewriteDoc(d, svc, image))
  {
    TextIsStructuredUpdate(d, svc, image);
    NewImageKeeps(d, svc, image);
  }

  // ---------- when that is the intended upgrade ----------

  /** The last scan to reach the image line is the service's own, or it writes what should
      be there anyway. */
  predicate AsMeant(s: Service, info: VersionInfo) {
    s.image.Some? && LastReaching(s).Some? && LastReaching(s) != Some(s.name) ==>
      " " + ImageFor(LastReaching(s).value, info) ==
      if s.name in {"postgres", "kong", "studio"} then " " + ImageFor(s.name, info) else s.image.value.value
  }

  lemma {:induction false} SameUpgrade(s: Service, info: VersionInfo)
    ensures |ServiceLines(Rescanned(s, info))| == |ServiceLines(Upgraded(s, info))|
    ensures ServiceLines(Rescanned(s, info)) == ServiceLines(Upgraded(s, info)) <==> AsMeant(s, info)
  {
    if s.image.Some? {
      var i := s.image.value;
      var r, u := Rescanned(s, info).image.value, Upgraded(s, info).image.value;
      assert ServiceLines(Rescanned(s, info))[1 + |s.before|] == ImageText(r);
      assert ServiceLines(Upgraded(s, info))[1 + |s.before|] == ImageText(u);
      assert ImageText(r)[|i.indent| + 6..] == r.value && ImageText(u)[|i.indent| + 6..] == u.value;
      assert r.value == u.value ==> r == u && Rescanned(s, info) == Upgraded(s, info);
      assert r.value == u.value <==> AsMeant(s, info) by { ReachedByName(s); }
    }
  }

  lemma ReachedByName(s: Service)
    ensures s.name in {"postgres", "kong", "studio"} ==> LastReaching(s).Some?
  {}

  /** The three scans together are the structured upgrade exactly when every image line is
      last reached by the scan for its own service. A line that misleads an earlier scan
      does no harm in a service a later scan is for. */
  lemma {:induction false} UpgradeIsStructured(d: Doc, info: VersionInfo)
    requires HasText(d) && OneLineInfo(info)
    ensures UpdatedCompose(Join(DocLines(d)), info) == Join(DocLines(UpgradedDoc(d, info))) <==>
            forall i | 0 <= i < |d.services| :: AsMeant(d.services[i], info)
  {
    ThreeScans(d, info);
    DocKeeps(d, (s: Service) => Upgraded(s, info));
    SameText(RescannedDoc(d, info), UpgradedDoc(d, info));
    SameUpgrades(d, info);
  }

  /** So a service of another name that depends on postgres, in the long form, gets one of
      the three images instead of keeping its own. */
  lemma {:induction false} DependentServiceLosesItsImage(name: string, pad: string, image: Image, info: VersionInfo)
    requires IsName(name) && NoNewline(name) && name !in {"postgres", "kong", "studio"} && OneLineInfo(info)
    requires AllBlank(pad) && |pad| >= 4 && AllBlank(image.indent) && NoNewline(image.value)
    requires image.value !in {" " + info.postgres, " " + info.kong, " " + info.studio}
    ensures var d := Doc([], [Service(name, [pad + ("postgres" + ":")], Some(image), [])], []);
            HasText(d) && UpdatedCompose(Join(DocLines(d)), info) != Join(DocLines(UpgradedDoc(d, info)))
  {
    var s := Service(name, [pad + ("postgres" + ":")], Some(image), []);
    var d := Doc([], [s], []);
    PostgresLine(pad);
    assert IsHeader(s.before[0], "postgres") && Reached(s, "postgres");
    OneServiceText(s);
    assert !AsMeant(d.services[0], info);
    UpgradeIsStructured(d, info);
  }

  lemma PostgresIsName()
    ensures IsName("postgres") && 'm' !in "postgres" && NoNewline("postgres")
  {
    NoM(HeaderLine("postgres"));
  }

  lemma PostgresLine(pad: string)
    requires AllBlank(pad) && |pad| >= 4
    ensures var line := pad + ("postgres" + ":");
            IsHeader(line, "postgres") && !IsImage(line) && !IsExit(line) && NoNewline(line)
  {
    PostgresIsName();
    NestedKey(pad, "postgres");
  }

  lemma OneServiceText(s: Service)
    requires IsService(s) && NoNewline(s.name) && AllLines(s.before) && AllLines(s.after)
    requires s.image.Some? ==> NoNewline(s.image.value.indent) && NoNewline(s.image.value.value)
    ensures HasText(Doc([], [s], []))
  {
    AllLinesParts(ImagePart(s), s.after);
    AllLinesParts(s.before, ImagePart(s) + s.after);
    AllLinesParts([HeaderLine(s.name)], s.before + (ImagePart(s) + s.after));
    assert [s][1..] == [];
    assert ServicesLines([s]) == ServiceLines(s) + ServicesLines([]) == ServiceLines(s);
    assert [] + (ServiceLines(s) + []) == ServiceLines(s);
  }

  lemma {:induction false} SameUpgrades(d: Doc, info: VersionInfo)
    ensures DocLines(RescannedDoc(d, info)) == DocLines(UpgradedDoc(d, info)) <==>
            forall i | 0 <= i < |d.services| :: AsMeant(d.services[i], info)
  {
    var f, g := (s: Service) => Rescanned(s, info), (s: Service) => Upgraded(s, info);
    var same := (s: Service) => AsMeant(s, info);
    forall s
      ensures Agree(s, f, g, same)
    {
      SameUpgrade(s, info);
    }
    SameDocs(d, f, g, same);
  }

  // ---------- which version is read from a document ----------

  function LineNames(line: string, registry: Registry): set<string> {
    if Marked(line) then Candidates(line, registry) else {}
  }

  /** The versions named by the first line that names any. */
  function FirstNames(lines: seq<string>, registry: Registry): set<string> {
    if lines == [] then {}
    else if LineNames(lines[0], registry) != {} then LineNames(lines[0], registry)
    else FirstNames(lines[1..], registry)
  }

  predicate Answers(names: set<string>, r: Option<string>) {
    if names == {} then r == None else r.Some? && r.value in names
  }

  lemma {:induction false} CurrentIsFirst(lines: seq<string>, registry: Registry, r: Option<string>)
    ensures IsCurrentVersion(lines, registry, r) <==> Answers(FirstNames(lines, registry), r)
  {
    if lines == [] {
    } else {
      CurrentIsFirst(lines[1..], registry, r);
      if LineNames(lines[0], registry) != {} {
        FirstLineNames(lines, registry, r);
      } else {
        LaterLineNames(lines, registry, r);
      }
    }
  }

  lemma FirstLineNames(lines: seq<string>, registry: Registry, r: Option<string>)
    requires lines != [] && LineNames(lines[0], registry) != {}
    ensures IsCurrentVersion(lines, registry, r) <==> r.Some? && r.value in LineNames(lines[0], registry)
  {
    assert Marked(lines[0]);
    if r.Some? && r.value in LineNames(lines[0], registry) { assert IsFirstNaming(lines, registry, r.value, 0); }
  }

  lemma LaterLineNames(lines: seq<string>, registry: Registry, r: Option<string>)
    requires lines != [] && LineNames(lines[0], registry) == {}
    ensures IsCurrentVersion(lines, registry, r) <==> IsCurrentVersion(lines[1..], registry, r)
  {
    match r
    case None => NoneNamed(lines, registry);
    case Some(v) =>
      if IsCurrentVersion(lines[1..], registry, r) {
        var i :| 0 <= i < |lines[1..]| && IsFirstNaming(lines[1..], registry, v, i);
        assert IsFirstNaming(lines, registry, v, i + 1);
      }
      if IsCurrentVersion(lines, registry, r) {
        var i :| 0 <= i < |lines| && IsFirstNaming(lines, registry, v, i);
        assert IsFirstNaming(lines[1..], registry, v, i - 1);
      }
  }

  lemma NoneNamed(lines: seq<string>, registry: Registry)
    requires lines != [] && LineNames(lines[0], registry) == {}
    ensures IsCurrentVersion(lines, registry, None) <==> IsCurrentVersion(lines[1..], registry, None)
  {
    assert forall i | 0 <= i < |lines| :: lines[i] == if i == 0 then lines[0] else lines[1..][i - 1];
  }

  lemma {:induction false} FirstNamesAppend(a: seq<string>, b: seq<string>, registry: Registry)
    ensures FirstNames(a + b, registry) ==
            if FirstNames(a, registry) != {} then FirstNames(a, registry) else FirstNames(b, registry)
  {
    if a == [] {
      assert a + b == b;
    } else {
      assert (a + b)[1..] == a[1..] + b;
      FirstNamesAppend(a[1..], b, registry);
    }
  }

  lemma {:induction false} NoImageNoNames(lines: seq<string>, registry: Registry)
    requires NoImages(lines)
    ensures FirstNames(lines, registry) == {}
  {
    if lines == [] {
    } else {
      NoImageNoNames(lines[1..], registry);
    }
  }

  function ImageNames(s: Service, registry: Registry): set<string> {
    if s.image.None? then {} else LineNames(ImageText(s.image.value), registry)
  }

  lemma {:induction false} ServiceNames(s: Service, registry: Registry)
    requires IsService(s)
    ensures FirstNames(ServiceLines(s), registry) == ImageNames(s, registry)
  {
    var tail := ImagePart(s) + s.after;
    NoImageNoNames([HeaderLine(s.name)], registry);
    NoImageNoNames(s.before, registry);
    NoImageNoNames(s.after, registry);
    FirstNamesAppend([HeaderLine(s.name)], s.before + tail, registry);
    FirstNamesAppend(s.before, tail, registry);
    FirstNamesAppend(ImagePart(s), s.after, registry);
    assert ImagePart(s) != [] ==> ImagePart(s)[1..] == [];
  }

  /** A function of the services in order: the first that is not empty. */
  function First(ss: seq<Service>, names: Service -> set<string>): set<string> {
    if ss == [] then {} else if names(ss[0]) != {} then names(ss[0]) else First(ss[1..], names)
  }

  lemma {:induction false} ServicesNames(ss: seq<Service>, f: Service -> Service, registry: Registry, names: Service -> set<string>)
    requires forall i | 0 <= i < |ss| :: IsService(f(ss[i])) && ImageNames(f(ss[i]), registry) == names(ss[i])
    ensures FirstNames(ServicesLines(MapServices(ss, f)), registry) == First(ss, names)
  {
    if ss == [] {
    } else {
      ServiceNames(f(ss[0]), registry);
      ServicesNames(ss[1..], f, registry, names);
      FirstNamesAppend(ServiceLines(f(ss[0])), ServicesLines(MapServices(ss[1..], f)), registry);
    }
  }

  // ---------- the round trip ----------

  /** The versions a service's image names after an update to v: v itself where the postgres
      scan is the last to reach it, none where another one is, and what it named before where
      no scan reaches it. */
  function NamesAfter(s: Service, registry: Registry, v: string): set<string> {
    if s.image.None? then {}
    else if LastReaching(s).None? then ImageNames(s, registry)
    else if LastReaching(s) == Some("postgres") then {v}
    else {}
  }

  lemma ImageTextIs(i: Image, image: string)
    ensures ImageText(NewImage(i, image)) == ImageLine(i.indent, image)
  {}

  lemma {:induction false} MarkedImage(indent: string, image: string)
    ensures Marked(ImageLine(indent, image)) <==> Contains(ImageLine(indent, image), POSTGRES)
  {
    ContainsPart(indent, "image:", " " + image);
    assert indent + "image:" + (" " + image) == ImageLine(indent, image);
  }

  lemma ImageContained(indent: string, image: string)
    ensures Contains(ImageLine(indent, image), image)
  {
    ContainsPart(indent + "image: ", image, "");
    assert indent + "image: " + image + "" == ImageLine(indent, image);
  }

  lemma PartOfPart(s: string, t: string, u: string)
    requires Contains(s, t) && Contains(t, u)
    ensures Contains(s, u)
  {
    var i :| 0 <= i <= |s| && OccursAt(s, t, i);
    var j :| 0 <= j <= |t| && OccursAt(t, u, j);
    Around(s, t, i);
    Around(t, u, j);
    var a, b, c, d := s[..i], s[i + |t|..], t[..j], t[j + |u|..];
    Regrouped(a, c, u, d, b);
    ContainsPart(a + c, u, d + b);
  }

  lemma Around(s: string, t: string, i: nat)
    requires OccursAt(s, t, i)
    ensures s == s[..i] + (t + s[i + |t|..])
  {}

  lemma Regrouped(a: string, b: string, c: string, d: string, e: string)
    ensures a + ((b + (c + d)) + e) == (a + b) + c + (d + e)
  {}

  lemma {:induction false} NewPostgresNames(indent: string, registry: Registry, v: string)
    requires AllBlank(indent) && Distinguishable(registry) && v in registry
    ensures LineNames(ImageLine(indent, registry[v].postgres), registry) == {v}
  {
    var line := ImageLine(indent, registry[v].postgres);
    ImageContained(indent, registry[v].postgres);
    PartOfPart(line, registry[v].postgres, POSTGRES);
    MarkedImage(indent, registry[v].postgres);
  }

  lemma {:induction false} RescannedNames(s: Service, registry: Registry, v: string)
    requires IsService(s) && Distinguishable(registry) && v in registry
    ensures IsService(Rescanned(s, registry[v]))
    ensures ImageNames(Rescanned(s, registry[v]), registry) == NamesAfter(s, registry, v)
  {
    if s.image.Some? {
      var i, info := s.image.value, registry[v];
      ImageTextIs(i, info.postgres);
      ImageTextIs(i, info.kong);
      ImageTextIs(i, info.studio);
      NewPostgresNames(i.indent, registry, v);
      assert !Marked(ImageLine(i.indent, info.kong)) && !Marked(ImageLine(i.indent, info.studio));
    }
  }

  // ---------- the same about any text ----------

  predicate TouchedBy(lines: seq<string>, svc: string, i: nat)
    requires i < |lines|
  {
    Touched(Kinds(lines, svc), false, i)
  }

  function Scan(lines: seq<string>, svc: string, info: VersionInfo): (r: seq<string>)
    ensures |r| == |lines|
  {
    Rewrite(lines, svc, ImageFor(svc, info), false)
  }

  function AllScans(lines: seq<string>, info: VersionInfo): (r: seq<string>)
    ensures |r| == |lines|
  {
    Scan(Scan(Scan(lines, "postgres", info), "kong", info), "studio", info)
  }

  /** The versions a line names after an update to v: none where the kong or the studio scan
      writes, v where only the postgres scan does, and what it named before elsewhere. */
  function NamesLeft(lines: seq<string>, registry: Registry, v: string, i: nat): set<string>
    requires v in registry && i < |lines|
  {
    var once := Scan(lines, "postgres", registry[v]);
    var twice := Scan(once, "kong", registry[v]);
    if TouchedBy(once, "kong", i) || TouchedBy(twice, "studio", i) then {}
    else if TouchedBy(lines, "postgres", i) then {v}
    else LineNames(lines[i], registry)
  }

  /** The first of these from a line on that is not empty. */
  function FirstLeft(lines: seq<string>, registry: Registry, v: string, from: nat): set<string>
    requires v in registry && from <= |lines|
    decreases |lines| - from
  {
    if from == |lines| then {}
    else if NamesLeft(lines, registry, v, from) != {} then NamesLeft(lines, registry, v, from)
    else FirstLeft(lines, registry, v, from + 1)
  }

  lemma ScanAt(lines: seq<string>, svc: string, info: VersionInfo, i: nat)
    requires i < |lines|
    ensures Scan(lines, svc, info)[i] ==
            if TouchedBy(lines, svc, i) then ImageLine(GetIndent(lines[i]), ImageFor(svc, info)) else lines[i]
  {}

  lemma {:induction false} LineLeft(lines: seq<string>, registry: Registry, v: string, i: nat)
    requires Distinguishable(registry) && v in registry && i < |lines|
    ensures LineNames(AllScans(lines, registry[v])[i], registry) == NamesLeft(lines, registry, v, i)
  {
    var info := registry[v];
    var once := Scan(lines, "postgres", info);
    var twice := Scan(once, "kong", info);
    ScanAt(lines, "postgres", info, i);
    ScanAt(once, "kong", info, i);
    ScanAt(twice, "studio", info, i);
    IndentIsBlank(lines[i]);
    IndentIsBlank(once[i]);
    IndentIsBlank(twice[i]);
    NewPostgresNames(GetIndent(lines[i]), registry, v);
    assert !Marked(ImageLine(GetIndent(once[i]), info.kong)) && !Marked(ImageLine(GetIndent(twice[i]), info.studio));
  }

  lemma {:induction false} FirstLeftIs(lines: seq<string>, registry: Registry, v: string, from: nat)
    requires Distinguishable(registry) && v in registry && from <= |lines|
    ensures FirstNames(AllScans(lines, registry[v])[from..], registry) == FirstLeft(lines, registry, v, from)
    decreases |lines| - from
  {
    var rest := AllScans(lines, registry[v])[from..];
    if from == |lines| {
      assert rest == [];
    } else {
      LineLeft(lines, registry, v, from);
      FirstLeftIs(lines, registry, v, from + 1);
      assert rest[1..] == AllScans(lines, registry[v])[from + 1..];
    }
  }

  lemma {:induction false} ScansOfText(content: string, info: VersionInfo)
    requires OneLineInfo(info)
    ensures Split(UpdatedCompose(content, info)) == AllScans(Split(content), info)
  {
    LineCountKept(content, "postgres", info.postgres);
    var once := ReplaceText(content, "postgres", info.postgres);
    LineCountKept(once, "kong", info.kong);
    LineCountKept(ReplaceText(once, "kong", info.kong), "studio", info.studio);
  }

  /** For any text at all, the answers GetCurrentVersion may give after an update are the
      versions named by the first line that names any, and which line names what is decided
      by the scans that touch it. */
  lemma {:induction false} TextReadBack(content: string, registry: Registry, v: string, r: Option<string>)
    requires Distinguishable(registry) && v in registry
    ensures IsCurrentVersion(Split(UpdatedCompose(content, registry[v])), registry, r) <==>
            Answers(FirstLeft(Split(content), registry, v, 0), r)
  {
    var lines := AllScans(Split(content), registry[v]);
    ScansOfText(content, registry[v]);
    CurrentIsFirst(lines, registry, r);
    FirstLeftIs(Split(content), registry, v, 0);
    assert lines[0..] == lines;
  }

  /** The scans touch what they would touch in the text as it was, when no key line of kong
      or studio is an image line as well. */
  lemma {:induction false} TouchedAsBefore(lines: seq<string>, info: VersionInfo, i: nat)
    requires i < |lines| && NoHeaderIsImage(lines, "kong") && NoHeaderIsImage(lines, "studio")
    ensures var once := Scan(lines, "postgres", info);
            && TouchedBy(once, "kong", i) == TouchedBy(lines, "kong", i)
            && TouchedBy(Scan(once, "kong", info), "studio", i) == TouchedBy(lines, "studio", i)
  {
    var once := Scan(lines, "postgres", info);
    SameTouched(lines, "kong", "postgres", info.postgres, i);
    SameTouched(lines, "studio", "postgres", info.postgres, i);
    forall k | 0 <= k < |lines|
      ensures !(IsHeader(once[k], "studio") && IsImage(once[k]))
    {
      ScanAt(lines, "postgres", info, k);
      ReplacedLine(lines[k], info.postgres, "studio");
    }
    SameTouched(once, "studio", "kong", info.kong, i);
  }

  // ---------- the same about documents of the layout ----------

  /** Whatever the document, the answers GetCurrentVersion may give after an update: the
      versions named by the first service that names any. */
  lemma {:induction false} VersionReadBack(d: Doc, registry: Registry, v: string, r: Option<string>)
    requires HasText(d) && Distinguishable(registry) && v in registry
    ensures IsCurrentVersion(Split(UpdatedCompose(Join(DocLines(d)), registry[v])), registry, r) <==>
            Answers(First(d.services, (s: Service) => NamesAfter(s, registry, v)), r)
  {
    var f, names := (s: Service) => Rescanned(s, registry[v]), (s: Service) => NamesAfter(s, registry, v);
    var u := RescannedDoc(d, registry[v]);
    ThreeScans(d, registry[v]);
    SplitJoin(DocLines(u));
    CurrentIsFirst(DocLines(u), registry, r);
    forall i | 0 <= i < |d.services|
      ensures IsService(f(d.services[i])) && ImageNames(f(d.services[i]), registry) == names(d.services[i])
    {
      RescannedNames(d.services[i], registry, v);
    }
    ServicesNames(d.services, f, registry, names);
    NoImageNoNames(d.pre, registry);
    NoImageNoNames(d.post, registry);
    FirstNamesAppend(u.pre, ServicesLines(u.services) + u.post, registry);
    FirstNamesAppend(ServicesLines(u.services), u.post, registry);
  }

  /** No postgres image is left where no scan comes to it. */
  predicate OthersUnmarked(d: Doc) {
    forall i | 0 <= i < |d.services| && d.services[i].image.Some? && LastReaching(d.services[i]).None? ::
      !Contains(ImageText(d.services[i].image.value), POSTGRES)
  }

  /** Some image line is reached for postgres, and not for kong or studio after that. */
  predicate PostgresWritten(d: Doc) {
    exists i | 0 <= i < |d.services| :: PostgresLast(d.services[i])
  }

  predicate PostgresLast(s: Service) { s.image.Some? && LastReaching(s) == Some("postgres") }

  lemma {:induction false} FirstIsPostgres(ss: seq<Service>, registry: Registry, v: string)
    requires forall i | 0 <= i < |ss| && ss[i].image.Some? && LastReaching(ss[i]).None? ::
               !Contains(ImageText(ss[i].image.value), POSTGRES)
    ensures First(ss, (s: Service) => NamesAfter(s, registry, v)) ==
            if exists i | 0 <= i < |ss| :: PostgresLast(ss[i]) then {v} else {}
  {
    if ss == [] {
    } else {
      FirstIsPostgres(ss[1..], registry, v);
      assert PostgresLast(ss[0]) <==> NamesAfter(ss[0], registry, v) != {};
      assert forall i | 0 <= i < |ss| :: ss[i] == if i == 0 then ss[0] else ss[1..][i - 1];
      assert forall i | 0 <= i < |ss[1..]| :: ss[1..][i] == ss[i + 1];
    }
  }

  /** The version written is the version read, in whatever order the registry is walked,
      exactly when the last word on some image line is postgres's; otherwise the version is
      unknown. */
  lemma {:induction false} VersionRoundTrip(d: Doc, registry: Registry, v: string, r: Option<string>)
    requires HasText(d) && OthersUnmarked(d) && Distinguishable(registry) && v in registry
    requires IsCurrentVersion(Split(UpdatedCompose(Join(DocLines(d)), registry[v])), registry, r)
    ensures r == if PostgresWritten(d) then Some(v) else None
  {
    VersionReadBack(d, registry, v, r);
    FirstIsPostgres(d.services, registry, v);
  }

  /** depends_on with its entries indented by `pad`. */
  function PostgresOnKong(pad: string, image: Image): Service {
    Service("postgres", [pad + ("kong" + ":")], Some(image), [])
  }

  /** It is unknown, for instance, when postgres itself depends on kong: the kong scan has
      the last word on its image. */
  lemma {:induction false} DependentPostgresIsUnknown(pad: string, image: Image, registry: Registry, v: string, r: Option<string>)
    requires AllBlank(pad) && |pad| >= 4 && AllBlank(image.indent) && NoNewline(image.value)
    requires Distinguishable(registry) && v in registry
    requires var d := Doc([], [PostgresOnKong(pad, image)], []);
             IsCurrentVersion(Split(UpdatedCompose(Join(DocLines(d)), registry[v])), registry, r)
    ensures HasText(Doc([], [PostgresOnKong(pad, image)], [])) && r == None
  {
    var s := PostgresOnKong(pad, image);
    KongLine(pad);
    PostgresIsName();
    KongIsLast(s, s.before[0]);
    OneServiceText(s);
    KongHasTheLastWord(s, registry, v, r);
  }

  lemma {:induction false} KongHasTheLastWord(s: Service, registry: Registry, v: string, r: Option<string>)
    requires HasText(Doc([], [s], [])) && LastReaching(s).Some? && LastReaching(s) != Some("postgres")
    requires Distinguishable(registry) && v in registry
    requires IsCurrentVersion(Split(UpdatedCompose(Join(DocLines(Doc([], [s], []))), registry[v])), registry, r)
    ensures r == None
  {
    VersionRoundTrip(Doc([], [s], []), registry, v, r);
  }

  lemma KongIsName()
    ensures IsName("kong") && 'm' !in "kong" && NoNewline("kong")
  {
    NoM(HeaderLine("kong"));
  }

  lemma KongLine(pad: string)
    requires AllBlank(pad) && |pad| >= 4
    ensures var line := pad + ("kong" + ":"); IsHeader(line, "kong") && !IsImage(line) && !IsExit(line) && NoNewline(line)
  {
    KongIsName();
    NestedKey(pad, "kong");
  }

  lemma {:induction false} KongIsLast(s: Service, line: string)
    requires s.name == "postgres" && s.before == [line] && s.after == []
    requires IsHeader(line, "kong") && !IsImage(line) && !IsExit(line) && IsName("postgres")
    requires s.image.Some? && AllBlank(s.image.value.indent)
    ensures IsService(s) && LastReaching(s).Some? && LastReaching(s) != Some("postgres")
  {
    assert IsHeader(s.before[0], "kong");
  }

  // ---------- the registry of this release ----------

  lemma {:induction false} EqualLength(indent: string, a: string, b: string)
    requires AllBlank(indent) && |a| == |b| && a != b && b != "" && b[0] == 's'
    ensures !Contains(ImageLine(indent, a), b)
  {
    var line := ImageLine(indent, a);
    forall k | 0 <= k <= |line|
      ensures !OccursAt(line, b, k)
    {
      if k < |indent| + 7 && k + |b| <= |line| {
        assert line[k..k + |b|][0] == line[k];
        assert line[k] == if k < |indent| then indent[k] else "image: "[k - |indent|];
      } else if k == |indent| + 7 {
        assert line[k..k + |b|] == a;
      }
    }
  }

  /** The marker's 'g' can only match the one in "image". */
  lemma {:induction false} NoMarker(indent: string, image: string)
    requires AllBlank(indent) && 'g' !in image
    ensures !Contains(ImageLine(indent, image), POSTGRES)
  {
    var line := ImageLine(indent, image);
    forall k | 0 <= k <= |line|
      ensures !OccursAt(line, POSTGRES, k)
    {
      if k + |POSTGRES| <= |line| {
        assert POSTGRES[13] == 'g' && line[k..k + |POSTGRES|][13] == line[k + 13];
        assert POSTGRES[0] == 's' && line[k..k + |POSTGRES|][0] == line[k];
        GInImage(indent, image, k + 13);
        assert k + 13 == |indent| + 3 ==> line[k] == indent[k];
      }
    }
  }

  lemma {:induction false} NoMarkerWithoutS(indent: string, image: string)
    requires AllBlank(indent) && 's' !in image
    ensures !Contains(ImageLine(indent, image), POSTGRES)
  {
    var line := ImageLine(indent, image);
    assert 's' !in line;
    forall k | 0 <= k <= |line|
      ensures !OccursAt(line, POSTGRES, k)
    {
      if k + |POSTGRES| <= |line| {
        assert POSTGRES[0] == 's' && line[k..k + |POSTGRES|][0] == line[k];
      }
    }
  }

  lemma {:induction false} GInImage(indent: string, image: string, i: nat)
    requires AllBlank(indent) && 'g' !in image && i < |ImageLine(indent, image)|
    ensures ImageLine(indent, image)[i] == 'g' ==> i == |indent| + 3
  {
    var line := ImageLine(indent, image);
    assert line[i] == if i < |indent| then indent[i]
                      else if i < |indent| + 7 then "image: "[i - |indent|] else image[i - |indent| - 7];
  }

  predicate InfoShape(info: VersionInfo) {
    && OneLineInfo(info) && HasPrefix(info.postgres, POSTGRES) && |info.postgres| == 28
    && 's' !in info.kong && 'g' !in info.studio
  }

  lemma TagShape(tag: string)
    requires NoNewline(tag) && |tag| == 11
    ensures var image := POSTGRES + tag; NoNewline(image) && HasPrefix(image, POSTGRES) && |image| == 28
  {}

  lemma StudioOld()
    ensures NoNewline("supabase/studio:20231123-64a766a") && 'g' !in "supabase/studio:20231123-64a766a"
  {}

  lemma StudioNew()
    ensures NoNewline("supabase/studio:20240101-a1b2c3d") && 'g' !in "supabase/studio:20240101-a1b2c3d"
  {}

  lemma {:induction false} RegistryInfo(v: string)
    requires v in REGISTRY
    ensures InfoShape(REGISTRY[v])
  {
    TagShape(":15.1.0.117");
    TagShape(":15.1.1.118");
    StudioOld();
    StudioNew();
    assert REGISTRY[v] == V1_23 || REGISTRY[v] == V1_24;
  }

  lemma {:induction false} RegistryIsDistinguishable()
    ensures Distinguishable(REGISTRY)
  {
    forall v | v in REGISTRY
      ensures Contains(REGISTRY[v].postgres, POSTGRES) && OneLineInfo(REGISTRY[v])
    {
      RegistryInfo(v);
      assert OccursAt(REGISTRY[v].postgres, POSTGRES, 0);
    }
    forall v, w, indent | v in REGISTRY && w in REGISTRY && v != w && AllBlank(indent)
      ensures !Contains(ImageLine(indent, REGISTRY[v].postgres), REGISTRY[w].postgres)
    {
      RegistryInfo(v);
      RegistryInfo(w);
      assert V1_23.postgres[23] == ":15.1.0.117"[6] != ":15.1.1.118"[6] == V1_24.postgres[23];
      assert REGISTRY[w].postgres[0] == POSTGRES[0] == 's';
      EqualLength(indent, REGISTRY[v].postgres, REGISTRY[w].postgres);
    }
    forall v, indent | v in REGISTRY && AllBlank(indent)
      ensures !Contains(ImageLine(indent, REGISTRY[v].kong), POSTGRES)
      ensures !Contains(ImageLine(indent, REGISTRY[v].studio), POSTGRES)
    {
      RegistryInfo(v);
      NoMarkerWithoutS(indent, REGISTRY[v].kong);
      NoMarker(indent, REGISTRY[v].studio);
    }
  }
}
