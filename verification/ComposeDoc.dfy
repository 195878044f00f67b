/** What the line scanner of internal/upgrade/upgrade.go is for: on a compose file laid
    out as usual, it changes the image of one service and nothing else. */
module ComposeDoc {
  import opened Text
  import opened ComposeRewrite

  /** `indent`, then "image:", then whatever follows on the line. */
  datatype Image = Image(indent: string, value: string)

  /** A service's key, the lines before its image line, the image line if there is one,
      and the lines after it. */
  datatype Service = Service(name: string, before: seq<string>, image: Option<Image>, after: seq<string>)

  /** Lines above the services, the services, lines below. */
  datatype Doc = Doc(pre: seq<string>, services: seq<Service>, post: seq<string>)

  // ---------- the text of a document ----------

  function HeaderLine(name: string): string { "  " + (name + ":") }

  function ImageText(i: Image): string { i.indent + ("image:" + i.value) }

  function ImagePart(s: Service): seq<string> { if s.image.Some? then [ImageText(s.image.value)] else [] }

  function ServiceLines(s: Service): seq<string> {
    [HeaderLine(s.name)] + (s.before + (ImagePart(s) + s.after))
  }

  function ServicesLines(ss: seq<Service>): seq<string> {
    if ss == [] then [] else ServiceLines(ss[0]) + ServicesLines(ss[1..])
  }

  function DocLines(d: Doc): seq<string> { d.pre + (ServicesLines(d.services) + d.post) }

  // ---------- the layout ----------

  predicate IsName(name: string) {
    name != "" && ':' !in name && !IsSpace(name[0]) && name[0] != '-' && !IsImage(HeaderLine(name))
  }

  /** Lines of a service: none of them an image line, none at the depth of a key of a service. */
  predicate IsBody(lines: seq<string>) {
    NoImages(lines) && forall i | 0 <= i < |lines| :: !IsExit(lines[i])
  }

  predicate IsService(s: Service) {
    IsName(s.name) && IsBody(s.before) && NoImages(s.after) && (s.image.Some? ==> AllBlank(s.image.value.indent))
  }

  predicate Layout(d: Doc) {
    NoImages(d.pre) && NoImages(d.post) && forall i | 0 <= i < |d.services| :: IsService(d.services[i])
  }

  // ---------- what the scanner should do, and what it does ----------

  function NewImage(i: Image, image: string): Image { i.(value := " " + image) }

  /** The structured update: the image of the named service. */
  function Updated(s: Service, svc: string, image: string): Service {
    if s.name == svc && s.image.Some? then s.(image := Some(NewImage(s.image.value, image))) else s
  }

  /** Some line before the image line reads like the key of the named service, as the
      long form of depends_on does. */
  predicate Misleads(s: Service, svc: string) {
    exists i | 0 <= i < |s.before| :: IsHeader(s.before[i], svc)
  }

  /** The scanner is inside the named service when it comes to the image line. */
  predicate Reached(s: Service, svc: string) { s.name == svc || Misleads(s, svc) }

  function Rewritten(s: Service, svc: string, image: string): Service {
    if Reached(s, svc) && s.image.Some?
    then s.(image := Some(NewImage(s.image.value, image))) else s
  }

  function MapServices(ss: seq<Service>, f: Service -> Service): seq<Service> {
    if ss == [] then [] else [f(ss[0])] + MapServices(ss[1..], f)
  }

  function UpdateDoc(d: Doc, svc: string, image: string): Doc {
    d.(services := MapServices(d.services, (s: Service) => Updated(s, svc, image)))
  }

  function RewriteDoc(d: Doc, svc: string, image: string): Doc {
    d.(services := MapServices(d.services, (s: Service) => Rewritten(s, svc, image)))
  }

  // ---------- proofs ----------

  lemma {:induction false} HeaderTrim(name: string)
    requires name != "" && !IsSpace(name[0])
    ensures TrimSpace(HeaderLine(name)) == name + ":"
  {
    var key := name + ":";
    assert key[0] == name[0] && key[|key| - 1] == ':';
    TrimPadded("  ", key);
  }

  lemma {:induction false} HeaderIsExit(name: string)
    requires IsName(name)
    ensures IsExit(HeaderLine(name))
  {
    HeaderTrim(name);
    KeyHasColon(name);
    NoDash(name);
    var line := HeaderLine(name);
    assert line[..2] == "  " && line[2] == name[0];
  }

  lemma KeyHasColon(name: string)
    ensures Contains(HeaderLine(name), ":")
  {
    ContainsPart("  " + name, ":", "");
    assert "  " + name + ":" + "" == HeaderLine(name);
  }

  lemma NoDash(name: string)
    requires name != "" && name[0] != '-'
    ensures !HasPrefix(name + ":", "-")
  {
    assert (name + ":")[..1] == [name[0]];
  }

  lemma {:induction false} HeaderKind(name: string, svc: string)
    requires IsName(name) && Plain(svc)
    ensures KindOf(HeaderLine(name), svc) == Kind(name == svc, false, true)
  {
    HeaderTrim(name);
    HeaderIsExit(name);
    if name == svc {
      ContainsPart("  ", svc + ":", "");
      assert "  " + (svc + ":") + "" == HeaderLine(name);
    } else {
      PrefixOfKey(name, svc);
    }
  }

  lemma PrefixOfKey(name: string, svc: string)
    requires ':' !in name && ':' !in svc && name != svc
    ensures !HasPrefix(name + ":", svc + ":")
  {
    var k, p := name + ":", svc + ":";
    assert p[|svc|] == ':' && k[|name|] == ':' && k[..|name|] == name && p[..|svc|] == svc;
    if |p| <= |k| {
      assert k[..|p|][|svc|] == k[|svc|];
      if |svc| < |name| { assert k[|svc|] == name[|svc|]; }
      else { assert k[..|p|][..|svc|] == name; }
    }
  }

  /** Through lines without images and exits the scanner can only be drawn in. */
  lemma {:induction false} BodyState(lines: seq<string>, svc: string, start: bool)
    requires IsBody(lines)
    ensures StateAfter(lines, svc, start) <==> start || exists i | 0 <= i < |lines| :: IsHeader(lines[i], svc)
  {
    BodyStateAt(lines, svc, start, |lines|);
  }

  lemma {:induction false} BodyStateAt(lines: seq<string>, svc: string, start: bool, n: nat)
    requires IsBody(lines) && n <= |lines|
    ensures StateAt(Kinds(lines, svc), start, n) <==> start || exists i | 0 <= i < n :: IsHeader(lines[i], svc)
  {
    if n == 0 {
    } else {
      BodyStateAt(lines, svc, start, n - 1);
      KindsAt(lines, svc, n - 1);
    }
  }

  lemma {:induction false} RewriteService(s: Service, svc: string, image: string, start: bool)
    requires IsService(s) && Plain(svc)
    ensures Rewrite(ServiceLines(s), svc, image, start) == ServiceLines(Rewritten(s, svc, image))
  {
    HeaderKind(s.name, svc);
    RewriteOne(HeaderLine(s.name), svc, image, start);
    RewriteAppend([HeaderLine(s.name)], s.before + (ImagePart(s) + s.after), svc, image, start);
    var inside := s.name == svc;
    RewriteAppend(s.before, ImagePart(s) + s.after, svc, image, inside);
    RewriteNoImages(s.before, svc, image, inside);
    BodyState(s.before, svc, inside);
    var reached := inside || Misleads(s, svc);
    RewriteAppend(ImagePart(s), s.after, svc, image, reached);
    RewriteNoImages(s.after, svc, image, StateAfter(ImagePart(s), svc, reached));
    if s.image.Some? {
      RewriteImage(s.image.value, svc, image, reached);
    } else {
      RewriteNoImages([], svc, image, reached);
    }
  }

  lemma {:induction false} RewriteImage(i: Image, svc: string, image: string, reached: bool)
    requires AllBlank(i.indent) && Plain(svc)
    ensures Rewrite([ImageText(i)], svc, image, reached) == [ImageText(if reached then NewImage(i, image) else i)]
  {
    KeyLine(i.indent, i.value, svc);
    RewriteOne(ImageText(i), svc, image, reached);
    assert Replacement(ImageText(i), image) == ImageText(NewImage(i, image));
  }

  lemma {:induction false} RewriteServices(ss: seq<Service>, svc: string, image: string, start: bool)
    requires Plain(svc) && forall i | 0 <= i < |ss| :: IsService(ss[i])
    ensures Rewrite(ServicesLines(ss), svc, image, start) ==
            ServicesLines(MapServices(ss, (s: Service) => Rewritten(s, svc, image)))
  {
    if ss == [] {
      RewriteNoImages([], svc, image, start);
    } else {
      RewriteService(ss[0], svc, image, start);
      RewriteAppend(ServiceLines(ss[0]), ServicesLines(ss[1..]), svc, image, start);
      RewriteServices(ss[1..], svc, image, StateAfter(ServiceLines(ss[0]), svc, start));
    }
  }

  /** What the scanner does to any document of this layout. */
  lemma {:induction false} RewriteIsRewriteDoc(d: Doc, svc: string, image: string)
    requires Layout(d) && Plain(svc)
    ensures Rewrite(DocLines(d), svc, image, false) == DocLines(RewriteDoc(d, svc, image))
  {
    RewriteAppend(d.pre, ServicesLines(d.services) + d.post, svc, image, false);
    RewriteNoImages(d.pre, svc, image, false);
    var start := StateAfter(d.pre, svc, false);
    RewriteAppend(ServicesLines(d.services), d.post, svc, image, start);
    RewriteServices(d.services, svc, image, start);
    RewriteNoImages(d.post, svc, image, StateAfter(ServicesLines(d.services), svc, start));
  }

  // ---------- when that is the intended change ----------

  /** No other service's image is reached through a misleading line, unless it has the
      new image already. */
  predicate NotMisled(d: Doc, svc: string, image: string) {
    forall i | 0 <= i < |d.services| :: ServiceNotMisled(d.services[i], svc, image)
  }

  predicate ServiceNotMisled(s: Service, svc: string, image: string) {
    s.name != svc && Misleads(s, svc) && s.image.Some? ==> s.image.value.value == " " + image
  }

  lemma {:induction false} SameService(s: Service, svc: string, image: string)
    ensures |ServiceLines(Rewritten(s, svc, image))| == |ServiceLines(Updated(s, svc, image))|
    ensures ServiceLines(Rewritten(s, svc, image)) == ServiceLines(Updated(s, svc, image)) <==>
            ServiceNotMisled(s, svc, image)
  {
    if s.image.Some? {
      var i := s.image.value;
      var r, u := Rewritten(s, svc, image), Updated(s, svc, image);
      assert ServiceLines(r)[1 + |s.before|] == ImageText(r.image.value);
      assert ServiceLines(u)[1 + |s.before|] == ImageText(u.image.value);
      assert ImageText(i)[|i.indent| + 6..] == i.value;
      assert ImageText(NewImage(i, image))[|i.indent| + 6..] == " " + image;
      assert ServiceNotMisled(s, svc, image) ==> NewImage(i, image) == i || s.name == svc || !Misleads(s, svc);
    }
  }

  /** Two changes of a service give as many lines, and the same ones exactly under a condition. */
  predicate Agree(s: Service, f: Service -> Service, g: Service -> Service, same: Service -> bool) {
    |ServiceLines(f(s))| == |ServiceLines(g(s))| && (ServiceLines(f(s)) == ServiceLines(g(s)) <==> same(s))
  }

  /** Two changes of services give the same lines exactly when they do for each service. */
  lemma {:induction false} SameServices(ss: seq<Service>, f: Service -> Service, g: Service -> Service, same: Service -> bool)
    requires forall s :: Agree(s, f, g, same)
    ensures var r, u := ServicesLines(MapServices(ss, f)), ServicesLines(MapServices(ss, g));
            |r| == |u| && (r == u <==> forall i | 0 <= i < |ss| :: same(ss[i]))
  {
    if ss == [] {
    } else {
      SameServices(ss[1..], f, g, same);
      assert Agree(ss[0], f, g, same);
      SameParts(ServiceLines(f(ss[0])), ServiceLines(g(ss[0])),
                ServicesLines(MapServices(ss[1..], f)), ServicesLines(MapServices(ss[1..], g)));
      assert forall i | 0 <= i < |ss| :: ss[i] == if i == 0 then ss[0] else ss[1..][i - 1];
    }
  }

  /** The same about documents. */
  lemma {:induction false} SameDocs(d: Doc, f: Service -> Service, g: Service -> Service, same: Service -> bool)
    requires forall s :: Agree(s, f, g, same)
    ensures DocLines(d.(services := MapServices(d.services, f))) == DocLines(d.(services := MapServices(d.services, g))) <==>
            forall i | 0 <= i < |d.services| :: same(d.services[i])
  {
    SameServices(d.services, f, g, same);
    var r, u := ServicesLines(MapServices(d.services, f)), ServicesLines(MapServices(d.services, g));
    SameParts(d.pre, d.pre, r + d.post, u + d.post);
    SameParts(r, u, d.post, d.post);
  }

  /** The scanner changes exactly the image of the named service when, and only when,
      no other service has a line like the named service's key above its image line. */
  lemma {:induction false} ScannerIsStructuredUpdate(d: Doc, svc: string, image: string)
    requires Layout(d) && Plain(svc)
    ensures Rewrite(DocLines(d), svc, image, false) == DocLines(UpdateDoc(d, svc, image)) <==>
            NotMisled(d, svc, image)
  {
    RewriteIsRewriteDoc(d, svc, image);
    var f, g := (s: Service) => Rewritten(s, svc, image), (s: Service) => Updated(s, svc, image);
    var same := (s: Service) => ServiceNotMisled(s, svc, image);
    forall s
      ensures Agree(s, f, g, same)
    {
      SameService(s, svc, image);
    }
    SameDocs(d, f, g, same);
  }

  // ---------- about the text of the file ----------

  /** A document of the layout that is the lines of a file. */
  predicate HasText(d: Doc) { Layout(d) && DocLines(d) != [] && AllLines(DocLines(d)) }

  /** At most what follows "image:" is changed, to something on one line. */
  predicate OnlyImage(s: Service, t: Service) {
    && t.name == s.name && t.before == s.before && t.after == s.after && (t.image.Some? <==> s.image.Some?)
    && (s.image.Some? ==> t.image.value.indent == s.image.value.indent)
    && (s.image.Some? ==> t.image.value.value == s.image.value.value || NoNewline(t.image.value.value))
  }

  lemma {:induction false} ServiceKeeps(s: Service, t: Service)
    requires OnlyImage(s, t)
    ensures |ServiceLines(t)| == |ServiceLines(s)| && (IsService(s) ==> IsService(t))
    ensures AllLines(ServiceLines(s)) ==> AllLines(ServiceLines(t))
  {
    if AllLines(ServiceLines(s)) && s.image.Some? {
      var n := 1 + |s.before|;
      assert ServiceLines(s)[n] == ImageText(s.image.value);
      assert NoNewline(ImageText(t.image.value)) by {
        assert forall c :: c in s.image.value.indent ==> c in ImageText(s.image.value);
      }
      assert forall i | 0 <= i < |ServiceLines(s)| && i != n :: ServiceLines(t)[i] == ServiceLines(s)[i];
    }
  }

  lemma {:induction false} ServicesKeep(ss: seq<Service>, f: Service -> Service)
    requires forall s :: OnlyImage(s, f(s))
    ensures |MapServices(ss, f)| == |ss| && |ServicesLines(MapServices(ss, f))| == |ServicesLines(ss)|
    ensures forall i | 0 <= i < |ss| && IsService(ss[i]) :: IsService(MapServices(ss, f)[i])
    ensures AllLines(ServicesLines(ss)) ==> AllLines(ServicesLines(MapServices(ss, f)))
  {
    if ss == [] {
    } else {
      ServiceKeeps(ss[0], f(ss[0]));
      ServicesKeep(ss[1..], f);
      AllLinesParts(ServiceLines(ss[0]), ServicesLines(ss[1..]));
      AllLinesParts(ServiceLines(f(ss[0])), ServicesLines(MapServices(ss[1..], f)));
    }
  }

  lemma AllLinesParts(a: seq<string>, b: seq<string>)
    ensures AllLines(a + b) <==> AllLines(a) && AllLines(b)
  {
    assert forall i | 0 <= i < |a| :: (a + b)[i] == a[i];
    assert forall i | 0 <= i < |b| :: (a + b)[|a| + i] == b[i];
  }

  lemma {:induction false} DocKeeps(d: Doc, f: Service -> Service)
    requires HasText(d) && forall s :: OnlyImage(s, f(s))
    ensures HasText(d.(services := MapServices(d.services, f)))
  {
    ServicesKeep(d.services, f);
    var u := d.(services := MapServices(d.services, f));
    AllLinesParts(d.pre, ServicesLines(d.services) + d.post);
    AllLinesParts(ServicesLines(d.services), d.post);
    AllLinesParts(u.pre, ServicesLines(u.services) + u.post);
    AllLinesParts(ServicesLines(u.services), u.post);
    assert |DocLines(u)| == |DocLines(d)|;
  }

  /** Two documents have the same text exactly when they have the same lines. */
  lemma SameText(a: Doc, b: Doc)
    requires HasText(a) && HasText(b)
    ensures Join(DocLines(a)) == Join(DocLines(b)) <==> DocLines(a) == DocLines(b)
  {
    SplitJoin(DocLines(a));
    SplitJoin(DocLines(b));
  }

  lemma {:induction false} NewImageKeeps(d: Doc, svc: string, image: string)
    requires HasText(d) && NoNewline(image)
    ensures HasText(UpdateDoc(d, svc, image)) && HasText(RewriteDoc(d, svc, image))
  {
    DocKeeps(d, (s: Service) => Updated(s, svc, image));
    DocKeeps(d, (s: Service) => Rewritten(s, svc, image));
  }

  /** What the scanner does to the text of a file, and when that is the intended change. */
  lemma {:induction false} TextIsStructuredUpdate(d: Doc, svc: string, image: string)
    requires HasText(d) && Plain(svc) && NoNewline(image)
    ensures var text := Join(Rewrite(Split(Join(DocLines(d))), svc, image, false));
            && text == Join(DocLines(RewriteDoc(d, svc, image)))
            && (text == Join(DocLines(UpdateDoc(d, svc, image))) <==> NotMisled(d, svc, image))
  {
    SplitJoin(DocLines(d));
    RewriteIsRewriteDoc(d, svc, image);
    ScannerIsStructuredUpdate(d, svc, image);
    NewImageKeeps(d, svc, image);
    SameText(RewriteDoc(d, svc, image), UpdateDoc(d, svc, image));
  }

  // ---------- a line that misleads ----------

  lemma {:induction false} ImageHasM(s: string)
    requires IsImage(s)
    ensures 'm' in s
  {
    var i :| 0 <= i <= |s| && OccursAt(s, "image:", i);
    assert s[i..i + 6] == "image:";
    assert s[i..i + 6][1] == s[i + 1];
  }

  lemma {:induction false} NoM(s: string)
    requires 'm' !in s
    ensures !IsImage(s)
  {
    if IsImage(s) { ImageHasM(s); }
  }

  /** A deeper key line with the service's name, as in the long form of depends_on. */
  lemma {:induction false} NestedKey(pad: string, svc: string)
    requires AllBlank(pad) && |pad| >= 4 && IsName(svc) && 'm' !in svc
    ensures var line := pad + (svc + ":"); IsHeader(line, svc) && !IsImage(line) && !IsExit(line)
  {
    NestedHeader(pad, svc);
    var line := pad + (svc + ":");
    NoM(line);
    assert line[..4] == pad[..4] == "    ";
  }

  lemma {:induction false} NestedHeader(pad: string, svc: string)
    requires AllBlank(pad) && IsName(svc)
    ensures IsHeader(pad + (svc + ":"), svc)
  {
    var key := svc + ":";
    assert key[0] == svc[0] && key[|key| - 1] == ':';
    TrimPadded(pad, key);
    ContainsPart(pad, key, "");
    assert pad + key + "" == pad + key;
  }

  lemma MisledDoc(s: Service, svc: string, image: string)
    requires s.before != [] && IsHeader(s.before[0], svc)
    requires s.name != svc && s.image.Some? && s.image.value.value != " " + image
    ensures !NotMisled(Doc([], [s], []), svc, image)
  {
    assert Misleads(s, svc);
    assert !ServiceNotMisled(Doc([], [s], []).services[0], svc, image);
  }

  /** Asked for one service, the scanner changes another one that names the first above
      its own image line. */
  lemma {:induction false} NestedKeyMisleads(svc: string, name: string, pad: string, was: string, image: string)
    requires IsName(svc) && Plain(svc) && IsName(name) && name != svc && 'm' !in svc
    requires AllBlank(pad) && |pad| >= 4 && was != " " + image
    ensures var d := Doc([], [Service(name, [pad + (svc + ":")], Some(Image(pad, was)), [])], []);
            && Layout(d)
            && Rewrite(DocLines(d), svc, image, false) != DocLines(UpdateDoc(d, svc, image))
  {
    var s := Service(name, [pad + (svc + ":")], Some(Image(pad, was)), []);
    NestedKey(pad, svc);
    assert IsService(s);
    assert IsHeader(s.before[0], svc);
    MisledDoc(s, svc, image);
    ScannerIsStructuredUpdate(Doc([], [s], []), svc, image);
  }

  /** For instance: kong depends on postgres, and an upgrade of postgres writes the
      postgres image into kong. */
  lemma {:induction false} DependsOnMisleads()
    ensures var kong := Service("kong", ["      " + ("postgres" + ":")], Some(Image("      ", " kong:2.8.1")), []);
            var d := Doc([], [kong], []);
            Layout(d) && Rewrite(DocLines(d), "postgres", "pg:15", false) != DocLines(UpdateDoc(d, "postgres", "pg:15"))
  {
    NoM(HeaderLine("kong"));
    NoM(HeaderLine("postgres"));
    assert " kong:2.8.1"[1] != (" " + "pg:15")[1];
    NestedKeyMisleads("postgres", "kong", "      ", " kong:2.8.1", "pg:15");
  }
}
