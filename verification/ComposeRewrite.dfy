/** internal/upgrade/upgrade.go, replaceImageVersion: a line scanner that replaces the
    image of one service in a docker-compose file. */
module ComposeRewrite {
  import opened Text

  /** The blanks (spaces only) before the first other character; nothing for a line of spaces. */
  function GetIndent(line: string): (r: string)
    ensures r <= line
  {
    var n := BlankCount(line);
    if n < |line| then line[..n] else ""
  }

  function BlankCount(line: string): (n: nat)
    ensures n <= |line| && (n < |line| ==> line[n] != ' ')
  {
    if line != "" && line[0] == ' ' then 1 + BlankCount(line[1..]) else 0
  }

  predicate IsHeader(line: string, svc: string) {
    Contains(line, svc + ":") && HasPrefix(TrimSpace(line), svc + ":")
  }

  predicate IsImage(line: string) { Contains(line, "image:") }

  /** A key at two spaces ends the service. */
  predicate IsExit(line: string) {
    HasPrefix(line, "  ") && Contains(line, ":") && !HasPrefix(TrimSpace(line), "-") && !HasPrefix(line, "    ")
  }

  function ImageLine(indent: string, image: string): string { indent + "image: " + image }

  function Replacement(line: string, image: string): string { ImageLine(GetIndent(line), image) }

  /** All the scanner asks about a line. */
  datatype Kind = Kind(header: bool, image: bool, exit: bool) {
    /** Inside the service, the scanner replaces this line. */
    predicate Touches(inService: bool) { !header && inService && image }

    /** Whether the scanner is inside the service after this line. */
    predicate After(inService: bool) { header || (inService && !image && !exit) }
  }

  function KindOf(line: string, svc: string): Kind {
    Kind(IsHeader(line, svc), IsImage(line), IsExit(line))
  }

  function Kinds(lines: seq<string>, svc: string): (ks: seq<Kind>)
    ensures |ks| == |lines|
  {
    if lines == [] then [] else [KindOf(lines[0], svc)] + Kinds(lines[1..], svc)
  }

  lemma {:induction false} KindsAt(lines: seq<string>, svc: string, i: nat)
    requires i < |lines|
    ensures Kinds(lines, svc)[i] == KindOf(lines[i], svc)
  {
    if i == 0 {
    } else {
      KindsAt(lines[1..], svc, i - 1);
    }
  }

  /** The scanner's state before line i. */
  function StateAt(ks: seq<Kind>, start: bool, i: nat): bool
    requires i <= |ks|
  {
    if i == 0 then start else ks[i - 1].After(StateAt(ks, start, i - 1))
  }

  predicate Touched(ks: seq<Kind>, start: bool, i: nat)
    requires i < |ks|
  {
    ks[i].Touches(StateAt(ks, start, i))
  }

  /** The lines with the touched ones replaced, and no others. */
  function Replaced(lines: seq<string>, ks: seq<Kind>, image: string, start: bool): (r: seq<string>)
    requires |ks| == |lines|
    ensures |r| == |lines|
    ensures forall i | 0 <= i < |r| ::
      r[i] == if Touched(ks, start, i) then Replacement(lines[i], image) else lines[i]
  {
    seq(|lines|, i requires 0 <= i < |lines| =>
      if Touched(ks, start, i) then Replacement(lines[i], image) else lines[i])
  }

  /** What the scanner makes of the lines. */
  function Rewrite(lines: seq<string>, svc: string, image: string, start: bool): (r: seq<string>)
    ensures |r| == |lines|
  {
    Replaced(lines, Kinds(lines, svc), image, start)
  }

  /** One turn of the loop. */
  method ScanLine(line: string, svc: string, image: string, inService: bool) returns (out: string, next: bool)
    ensures out == if KindOf(line, svc).Touches(inService) then Replacement(line, image) else line
    ensures next == KindOf(line, svc).After(inService)
  {
    out, next := line, inService;
    if IsHeader(line, svc) {
      next := true;
      return;
    }
    if next && IsImage(line) {
      var indent := GetIndent(line);
      out := ImageLine(indent, image);
      next := false;
    }
    if next && IsExit(line) {
      next := false;
    }
  }

  /** The file's lines after the scanner has been over the first n. */
  function Upto(lines: seq<string>, ks: seq<Kind>, image: string, n: nat): (r: seq<string>)
    requires |ks| == |lines| && n <= |lines|
    ensures |r| == |lines|
  {
    seq(|lines|, j requires 0 <= j < |lines| =>
      if j < n && Touched(ks, false, j) then Replacement(lines[j], image) else lines[j])
  }

  lemma {:induction false} UptoNext(lines: seq<string>, ks: seq<Kind>, image: string, n: nat)
    requires |ks| == |lines| && n < |lines|
    ensures Upto(lines, ks, image, n)[n] == lines[n]
    ensures Upto(lines, ks, image, n + 1) ==
            Upto(lines, ks, image, n)[n := if Touched(ks, false, n) then Replacement(lines[n], image) else lines[n]]
  {}

  lemma {:induction false} UptoAll(lines: seq<string>, svc: string, image: string)
    ensures Upto(lines, Kinds(lines, svc), image, |lines|) == Rewrite(lines, svc, image, false)
  {}

  method ReplaceImageVersion(content: string, svc: string, image: string) returns (r: string)
    ensures r == Join(Rewrite(Split(content), svc, image, false))
  {
    var lines := Split(content);
    ghost var start, ks := lines, Kinds(lines, svc);
    assert lines == Upto(start, ks, image, 0);
    var inService := false;
    for i := 0 to |lines|
      invariant lines == Upto(start, ks, image, i)
      invariant inService == StateAt(ks, false, i)
    {
      UptoNext(start, ks, image, i);
      KindsAt(start, svc, i);
      var out;
      out, inService := ScanLine(lines[i], svc, image, inService);
      lines := lines[i := out];
    }
    UptoAll(start, svc, image);
    r := Join(lines);
  }

  // ---------- the scanner on a file in parts ----------

  lemma {:induction false} StateAppend(a: seq<Kind>, b: seq<Kind>, start: bool, j: nat)
    requires j <= |b|
    ensures StateAt(a + b, start, |a| + j) == StateAt(b, StateAt(a, start, |a|), j)
    ensures j < |b| ==> Touched(a + b, start, |a| + j) == Touched(b, StateAt(a, start, |a|), j)
  {
    if j == 0 {
      StatePrefix(a, b, start, |a|);
    } else {
      StateAppend(a, b, start, j - 1);
    }
  }

  lemma {:induction false} StatePrefix(a: seq<Kind>, b: seq<Kind>, start: bool, i: nat)
    requires i <= |a|
    ensures StateAt(a + b, start, i) == StateAt(a, start, i)
    ensures i < |a| ==> Touched(a + b, start, i) == Touched(a, start, i)
  {
    if i == 0 {
    } else {
      StatePrefix(a, b, start, i - 1);
    }
  }

  /** The state after some lines. */
  function StateAfter(lines: seq<string>, svc: string, start: bool): bool {
    StateAt(Kinds(lines, svc), start, |lines|)
  }

  lemma {:induction false} ReplacedAppend(a: seq<string>, ka: seq<Kind>, b: seq<string>, kb: seq<Kind>, image: string, start: bool)
    requires |ka| == |a| && |kb| == |b|
    ensures Replaced(a + b, ka + kb, image, start) ==
            Replaced(a, ka, image, start) + Replaced(b, kb, image, StateAt(ka, start, |a|))
  {
    var whole, x, y := Replaced(a + b, ka + kb, image, start),
                       Replaced(a, ka, image, start), Replaced(b, kb, image, StateAt(ka, start, |a|));
    forall i | 0 <= i < |a| + |b|
      ensures whole[i] == (x + y)[i]
    {
      ReplacedAt(a, ka, b, kb, image, start, i);
    }
  }

  lemma {:induction false} ReplacedAt(a: seq<string>, ka: seq<Kind>, b: seq<string>, kb: seq<Kind>, image: string, start: bool, i: nat)
    requires |ka| == |a| && |kb| == |b| && i < |a| + |b|
    ensures Replaced(a + b, ka + kb, image, start)[i] ==
            if i < |a| then Replaced(a, ka, image, start)[i]
            else Replaced(b, kb, image, StateAt(ka, start, |a|))[i - |a|]
  {
    TouchedAppend(ka, kb, start, i);
    ReplacedIndex(a + b, ka + kb, image, start, i);
    if i < |a| {
      ReplacedIndex(a, ka, image, start, i);
    } else {
      ReplacedIndex(b, kb, image, StateAt(ka, start, |a|), i - |a|);
    }
  }

  lemma ReplacedIndex(lines: seq<string>, ks: seq<Kind>, image: string, start: bool, i: nat)
    requires |ks| == |lines| && i < |lines|
    ensures Replaced(lines, ks, image, start)[i] == if Touched(ks, start, i) then Replacement(lines[i], image) else lines[i]
  {}

  lemma {:induction false} TouchedAppend(ka: seq<Kind>, kb: seq<Kind>, start: bool, i: nat)
    requires i < |ka| + |kb|
    ensures Touched(ka + kb, start, i) ==
            if i < |ka| then Touched(ka, start, i) else Touched(kb, StateAt(ka, start, |ka|), i - |ka|)
  {
    if i < |ka| { StatePrefix(ka, kb, start, i); } else { StateAppend(ka, kb, start, i - |ka|); }
  }

  /** A part is scanned from the state the parts before it leave. */
  lemma {:induction false} RewriteAppend(a: seq<string>, b: seq<string>, svc: string, image: string, start: bool)
    ensures Rewrite(a + b, svc, image, start) ==
            Rewrite(a, svc, image, start) + Rewrite(b, svc, image, StateAfter(a, svc, start))
    ensures StateAfter(a + b, svc, start) == StateAfter(b, svc, StateAfter(a, svc, start))
  {
    KindsAppend(a, b, svc);
    StateAppend(Kinds(a, svc), Kinds(b, svc), start, |b|);
    ReplacedAppend(a, Kinds(a, svc), b, Kinds(b, svc), image, start);
  }

  lemma {:induction false} KindsAppend(a: seq<string>, b: seq<string>, svc: string)
    ensures Kinds(a + b, svc) == Kinds(a, svc) + Kinds(b, svc)
  {
    if a == [] {
      assert a + b == b;
    } else {
      assert (a + b)[1..] == a[1..] + b;
      KindsAppend(a[1..], b, svc);
    }
  }

  lemma {:induction false} RewriteOne(line: string, svc: string, image: string, start: bool)
    ensures Rewrite([line], svc, image, start) ==
            [if KindOf(line, svc).Touches(start) then Replacement(line, image) else line]
    ensures StateAfter([line], svc, start) == KindOf(line, svc).After(start)
  {
    var ks := Kinds([line], svc);
    assert StateAt(ks, start, 0) == start;
    assert StateAt(ks, start, 1) == ks[0].After(start);
  }

  predicate NoImages(lines: seq<string>) { forall i | 0 <= i < |lines| :: !IsImage(lines[i]) }

  lemma {:induction false} RewriteNoImages(lines: seq<string>, svc: string, image: string, start: bool)
    requires NoImages(lines)
    ensures Rewrite(lines, svc, image, start) == lines
  {
    forall i | 0 <= i < |lines| {
      KindsAt(lines, svc, i);
    }
  }

  // ---------- any text ----------

  /** Names that cannot be confused with the key of an image line. */
  predicate Plain(svc: string) { ':' !in svc && svc != "image" }

  lemma {:induction false} BlankCountOf(n: nat, s: string)
    requires s != "" && s[0] != ' '
    ensures var pad := seq(n, _ => ' '); BlankCount(pad + s) == n && GetIndent(pad + s) == pad
  {
    var pad := seq(n, _ => ' ');
    if n == 0 {
      assert pad + s == s;
    } else {
      BlankCountOf(n - 1, s);
      assert (pad + s)[1..] == seq(n - 1, _ => ' ') + s;
      assert (pad + s)[..n] == pad;
    }
  }

  predicate AllBlank(s: string) { forall i | 0 <= i < |s| :: s[i] == ' ' }

  lemma {:induction false} IndentIsBlank(line: string)
    ensures AllBlank(GetIndent(line))
  {
    BlankCountBlank(line);
  }

  lemma {:induction false} BlankCountBlank(line: string)
    ensures forall i | 0 <= i < BlankCount(line) :: line[i] == ' '
  {
    if line != "" && line[0] == ' ' {
      BlankCountBlank(line[1..]);
      assert forall i | 1 <= i < BlankCount(line) :: line[i] == line[1..][i - 1];
    }
  }

  lemma {:induction false} IndentOf(indent: string, s: string)
    requires AllBlank(indent) && s != "" && s[0] != ' '
    ensures GetIndent(indent + s) == indent
  {
    BlankCountOf(|indent|, s);
    assert indent == seq(|indent|, _ => ' ');
  }

  /** What trimming leaves of a line that starts, after blanks, with "image:". */
  lemma {:induction false} TrimKey(indent: string, rest: string)
    requires AllBlank(indent)
    ensures HasPrefix(TrimSpace(indent + ("image:" + rest)), "image:")
  {
    var s := "image:" + rest;
    assert AllSpace(indent);
    SpaceRunPad(indent, s);
    assert s[0] == 'i' && SpaceRun(s) == 0;
    assert TrimLeft(indent + s) == s;
    TrimRightKeeps(s, 6);
  }

  lemma {:induction false} PrefixIsKey(t: string, svc: string)
    requires HasPrefix(t, "image:") && Plain(svc)
    ensures !HasPrefix(t, svc + ":")
  {
    var key := svc + ":";
    assert t[..6] == "image:" && t[5] == t[..6][5] == ':';
    assert key[|svc|] == ':' && key[..|svc|] == svc;
    if |svc| < |t| {
      var p := t[..|svc| + 1];
      assert p[|svc|] == t[|svc|];
      assert |svc| > 5 ==> p[5] == ':';
      assert |svc| < 5 ==> t[..6][|svc|] == t[|svc|];
      assert |svc| == 5 ==> p[..5] == t[..6][..5] == "image";
    }
  }

  /** An image line is never a header, and a replaced line is again an image line with
      the same indentation. */
  lemma {:induction false} KeyLine(indent: string, rest: string, svc: string)
    requires AllBlank(indent) && Plain(svc)
    ensures var line := indent + ("image:" + rest);
            !IsHeader(line, svc) && IsImage(line) && GetIndent(line) == indent
  {
    TrimKey(indent, rest);
    PrefixIsKey(TrimSpace(indent + ("image:" + rest)), svc);
    assert indent + ("image:" + rest) == indent + "image:" + rest;
    ContainsPart(indent, "image:", rest);
    IndentOf(indent, "image:" + rest);
  }

  lemma {:induction false} ReplacedLine(line: string, image: string, svc: string)
    requires Plain(svc)
    ensures var r := Replacement(line, image);
            !IsHeader(r, svc) && IsImage(r) && GetIndent(r) == GetIndent(line)
  {
    IndentIsBlank(line);
    assert Replacement(line, image) == GetIndent(line) + ("image:" + (" " + image));
    KeyLine(GetIndent(line), " " + image, svc);
  }

  /** Two files that differ only in lines that are image lines and no headers take the
      scanner through the same states. */
  predicate SameButImages(a: seq<Kind>, b: seq<Kind>) {
    |a| == |b| && forall i | 0 <= i < |a| ::
      a[i] == b[i] || (a[i].image && b[i].image && !a[i].header && !b[i].header)
  }

  lemma {:induction false} SameStates(a: seq<Kind>, b: seq<Kind>, start: bool, i: nat)
    requires SameButImages(a, b) && i <= |a|
    ensures StateAt(a, start, i) == StateAt(b, start, i)
    ensures i < |a| ==> Touched(a, start, i) == Touched(b, start, i)
  {
    if i == 0 {
    } else {
      SameStates(a, b, start, i - 1);
    }
  }

  predicate NoHeaderIsImage(lines: seq<string>, svc: string) {
    forall k | 0 <= k < |lines| :: !(IsHeader(lines[k], svc) && IsImage(lines[k]))
  }

  /** Rewriting one service does not change which lines belong to another one. */
  lemma {:induction false} SameTouched(lines: seq<string>, a: string, b: string, image: string, i: nat)
    requires i < |lines| && Plain(a) && (a == b || NoHeaderIsImage(lines, a))
    ensures Touched(Kinds(Rewrite(lines, b, image, false), a), false, i) == Touched(Kinds(lines, a), false, i)
  {
    var before, after := Kinds(lines, a), Kinds(Rewrite(lines, b, image, false), a);
    forall k | 0 <= k < |lines|
      ensures before[k] == after[k] || (before[k].image && after[k].image && !before[k].header && !after[k].header)
    {
      KindsAt(lines, a, k);
      KindsAt(lines, b, k);
      KindsAt(Rewrite(lines, b, image, false), a, k);
      ReplacedLine(lines[k], image, a);
    }
    SameStates(before, after, false, i);
  }

  /** No line is touched for both services. */
  predicate Disjoint(lines: seq<string>, a: string, b: string) {
    forall i | 0 <= i < |lines| :: !(Touched(Kinds(lines, a), false, i) && Touched(Kinds(lines, b), false, i))
  }

  /** Two rewrites can be done in either order exactly when they touch different lines
      or write the same image. */
  lemma {:induction false} RewritesCommute(lines: seq<string>, a: string, x: string, b: string, y: string)
    requires Plain(a) && Plain(b) && NoHeaderIsImage(lines, a) && NoHeaderIsImage(lines, b)
    ensures Rewrite(Rewrite(lines, a, x, false), b, y, false) == Rewrite(Rewrite(lines, b, y, false), a, x, false) <==>
            Disjoint(lines, a, b) || x == y
  {
    var ab := Rewrite(Rewrite(lines, a, x, false), b, y, false);
    var ba := Rewrite(Rewrite(lines, b, y, false), a, x, false);
    forall i | 0 <= i < |lines|
      ensures Touched(Kinds(lines, a), false, i) && Touched(Kinds(lines, b), false, i) ==>
        ab[i] == Replacement(lines[i], y) && ba[i] == Replacement(lines[i], x)
      ensures !(Touched(Kinds(lines, a), false, i) && Touched(Kinds(lines, b), false, i)) ==> ab[i] == ba[i]
    {
      SameTouched(lines, a, b, y, i);
      SameTouched(lines, b, a, x, i);
      ReplacedLine(lines[i], x, a);
      ReplacedLine(lines[i], y, b);
    }
    if ab == ba && !Disjoint(lines, a, b) {
      var i :| 0 <= i < |lines| && Touched(Kinds(lines, a), false, i) && Touched(Kinds(lines, b), false, i);
      SameImage(GetIndent(lines[i]), x, y);
    }
  }

  lemma SameImage(indent: string, x: string, y: string)
    requires ImageLine(indent, x) == ImageLine(indent, y)
    ensures x == y
  {
    assert x == ImageLine(indent, x)[|indent| + 7..];
    assert y == ImageLine(indent, y)[|indent| + 7..];
  }

  /** Rewriting again with the same image changes nothing. */
  lemma {:induction false} RewriteIdempotent(lines: seq<string>, svc: string, image: string)
    requires Plain(svc)
    ensures Rewrite(Rewrite(lines, svc, image, false), svc, image, false) == Rewrite(lines, svc, image, false)
  {
    forall i | 0 <= i < |lines|
      ensures Rewrite(Rewrite(lines, svc, image, false), svc, image, false)[i] == Rewrite(lines, svc, image, false)[i]
    {
      SameTouched(lines, svc, svc, image, i);
      ReplacedLine(lines[i], image, svc);
    }
  }

  /** The number of lines of the text does not change. */
  lemma {:induction false} LineCountKept(content: string, svc: string, image: string)
    requires NoNewline(image)
    ensures Split(Join(Rewrite(Split(content), svc, image, false))) == Rewrite(Split(content), svc, image, false)
  {
    var lines := Split(content);
    forall i | 0 <= i < |lines|
      ensures NoNewline(Replacement(lines[i], image))
    {
      assert forall c :: c in GetIndent(lines[i]) ==> c in lines[i];
    }
    SplitJoin(Rewrite(lines, svc, image, false));
  }
}
