/** internal/files/files.go, generateKongEntrypoint: the awk program that puts environment
    variables into the Kong configuration, line by line. */
module Kong {
  import opened Text

  type Env = map<string, string>

  predicate NameStart(c: char) { 'A' <= c <= 'Z' || 'a' <= c <= 'z' || c == '_' }

  predicate NameChar(c: char) { NameStart(c) || '0' <= c <= '9' }

  // ---------- the reference: a line is a list of pieces ----------

  /** Text without a variable in it, or a variable by its name. */
  datatype Piece = Lit(text: string) | Var(name: string)

  predicate IsName(s: string) {
    s != "" && NameStart(s[0]) && forall i | 0 <= i < |s| :: NameChar(s[i])
  }

  /** No "$" of the text is followed by the start of a name. */
  predicate NoVariable(s: string) {
    forall i | 0 <= i < |s| - 1 :: s[i] == '$' ==> !NameStart(s[i + 1])
  }

  predicate IsPiece(p: Piece) {
    match p
    case Lit(text) => text != "" && NoVariable(text)
    case Var(name) => IsName(name)
  }

  function Show(p: Piece): (s: string)
    requires IsPiece(p)
    ensures s != ""
  {
    match p
    case Lit(text) => text
    case Var(name) => "$" + name
  }

  /** Texts are not split, and a name is not followed by more of it. */
  predicate Apart(p: Piece, q: Piece)
    requires IsPiece(p) && IsPiece(q)
  {
    match p
    case Lit(_) => q.Var?
    case Var(_) => !NameChar(Show(q)[0])
  }

  predicate Pieces(ps: seq<Piece>) {
    ps != [] ==> IsPiece(ps[0]) && Pieces(ps[1..]) && (|ps| > 1 ==> Apart(ps[0], ps[1]))
  }

  /** The line the pieces are of. */
  function Line(ps: seq<Piece>): string
    requires Pieces(ps)
  {
    if ps == [] then "" else Show(ps[0]) + Line(ps[1..])
  }

  function Value(p: Piece, env: Env): string {
    match p
    case Lit(text) => text
    case Var(name) => if name in env then env[name] else "$" + name
  }

  /** Every variable replaced by its value; one that is not set stays as it is. */
  function Rendered(ps: seq<Piece>, env: Env): string {
    if ps == [] then "" else Value(ps[0], env) + Rendered(ps[1..], env)
  }

  // ---------- awk's match ----------

  /** Where the first variable starts; the length of the text if there is none. */
  function FirstVar(s: string): (n: nat)
    ensures n <= |s|
    ensures n < |s| ==> n + 1 < |s| && s[n] == '$' && NameStart(s[n + 1])
  {
    if |s| < 2 then |s| else if s[0] == '$' && NameStart(s[1]) then 0 else 1 + FirstVar(s[1..])
  }

  /** How many characters of a name the text begins with. */
  function NameRun(s: string): (n: nat)
    ensures n <= |s|
    ensures forall i | 0 <= i < n :: NameChar(s[i])
    ensures n < |s| ==> !NameChar(s[n])
  {
    if s == "" || !NameChar(s[0]) then 0 else 1 + NameRun(s[1..])
  }

  /** A text up to its first variable, the variable's name, and what follows it. */
  datatype Found = Found(before: string, name: string, rest: string)

  /** awk's match: the leftmost variable, with the longest name. */
  function Find(s: string): (f: Option<Found>)
    ensures f.Some? ==> |f.value.rest| < |s|
  {
    var n := FirstVar(s);
    if n == |s| then None
    else
      var t := s[n + 1..];
      Some(Found(s[..n], t[..NameRun(t)], t[NameRun(t)..]))
  }

  /** Text, a variable, and more pieces. */
  function Put(before: string, name: string, ps: seq<Piece>): seq<Piece> {
    if before == "" then [Var(name)] + ps else [Lit(before)] + ([Var(name)] + ps)
  }

  /** The pieces of any text. */
  function Tokenise(s: string): seq<Piece>
    decreases |s|
  {
    match Find(s)
    case None => if s == "" then [] else [Lit(s)]
    case Some(f) => Put(f.before, f.name, Tokenise(f.rest))
  }

  lemma RenderedPut(before: string, name: string, ps: seq<Piece>, env: Env)
    ensures Rendered(Put(before, name, ps), env) == before + (Value(Var(name), env) + Rendered(ps, env))
  {
    assert ([Var(name)] + ps)[1..] == ps;
    assert ([Lit(before)] + ([Var(name)] + ps))[1..] == [Var(name)] + ps;
  }

  lemma RenderedLit(s: string, env: Env)
    ensures s != "" ==> Rendered([Lit(s)], env) == s
  {
    assert Rendered([], env) == "";
  }

  /** One round of the loop: RSTART - 1 is start and RLENGTH is 1 + length. */
  method Next(rest: string, env: Env) returns (printed: string, more: string, done: bool)
    ensures done ==> printed == "" && more == rest && Rendered(Tokenise(rest), env) == rest
    ensures !done ==> |more| < |rest|
    ensures printed + Rendered(Tokenise(more), env) == Rendered(Tokenise(rest), env)
    ensures done <==> NoVariable(rest)
    ensures forall f: Found | IsFound(f) && rest == f.before + (("$" + f.name) + f.rest) ::
              more == f.rest && printed == f.before + if f.name in env then env[f.name] else "$" + f.name
  {
    NoVariableIs(rest);
    forall f: Found | IsFound(f) && rest == f.before + (("$" + f.name) + f.rest)
      ensures Find(rest) == Some(f)
    {
      FindIs(f);
    }
    var start := FirstVar(rest);
    if start == |rest| {
      RenderedLit(rest, env);
      return "", rest, true;
    }
    var length := NameRun(rest[start + 1..]);
    var name := rest[start + 1..start + 1 + length];
    more, done := rest[start + 1 + length..], false;
    printed := if name in env then rest[..start] + env[name] else rest[..start + 1 + length];
    Substr(rest, start, length);
    assert Find(rest) == Some(Found(rest[..start], name, more));
    RenderedPut(rest[..start], name, Tokenise(more), env);
    Reassociate(rest[..start], Value(Var(name), env), Rendered(Tokenise(more), env));
  }

  /** awk's substr, in one step or in two. */
  lemma Substr(s: string, start: nat, length: nat)
    requires start + 1 + length <= |s| && s[start] == '$'
    ensures s[start + 1..][..length] == s[start + 1..start + 1 + length]
    ensures s[start + 1..][length..] == s[start + 1 + length..]
    ensures s[..start + 1 + length] == s[..start] + ("$" + s[start + 1..start + 1 + length])
  {}

  /** The awk loop. The line up to its first variable stays, the variable becomes its value, or
      stays if it has none, and then comes what the rest is printed as; a line without
      variables stays as it is. */
  method Substitute(line: string, env: Env) returns (result: string)
    ensures result == Rendered(Tokenise(line), env)
    ensures NoVariable(line) ==> result == line
    ensures forall f: Found | IsFound(f) && line == f.before + (("$" + f.name) + f.rest) ::
              result == f.before + ((if f.name in env then env[f.name] else "$" + f.name) + Rendered(Tokenise(f.rest), env))
  {
    SubstitutionOf(line, env);
    var rest, done := line, false;
    result := "";
    while !done
      invariant result + Rendered(Tokenise(rest), env) == Rendered(Tokenise(line), env)
      invariant done ==> Rendered(Tokenise(rest), env) == rest
      decreases !done, |rest|
    {
      var printed, more;
      printed, more, done := Next(rest, env);
      Reassociate(result, printed, Rendered(Tokenise(more), env));
      result, rest := result + printed, more;
    }
    result := result + rest;
  }

  lemma Reassociate(a: string, b: string, c: string)
    ensures (a + b) + c == a + (b + c)
  {}

  // ---------- the pieces of a text are unique ----------

  lemma {:induction false} NoVariableIs(s: string)
    ensures NoVariable(s) <==> FirstVar(s) == |s|
  {
    if |s| >= 2 {
      NoVariableIs(s[1..]);
      var t := s[1..];
      if NoVariable(s) {
        forall i | 0 <= i < |t| - 1 && t[i] == '$' ensures !NameStart(t[i + 1]) { assert s[i + 1] == '$'; }
      }
      if FirstVar(s) == |s| {
        forall i | 0 <= i < |s| - 1 && s[i] == '$'
          ensures !NameStart(s[i + 1])
        {
          if i > 0 { assert s[1..][i - 1] == '$' && s[1..][i - 1 + 1] == s[i + 1]; }
        }
      }
    }
  }

  /** The first variable after text without one. */
  lemma {:induction false} FirstVarAfter(t: string, u: string)
    requires FirstVar(t) == |t| && u != "" && u[0] == '$' && FirstVar(u) == 0
    ensures FirstVar(t + u) == |t|
  {
    if t == "" {
      assert t + u == u;
    } else {
      assert (t + u)[1..] == t[1..] + u;
      assert |t| >= 2 ==> (t + u)[1] == t[1];
      FirstVarAfter(t[1..], u);
    }
  }

  lemma {:induction false} NameRunIs(name: string, rest: string)
    requires forall i | 0 <= i < |name| :: NameChar(name[i])
    requires rest == "" || !NameChar(rest[0])
    ensures NameRun(name + rest) == |name|
  {
    if name == "" {
      assert name + rest == rest;
    } else {
      assert (name + rest)[1..] == name[1..] + rest;
      NameRunIs(name[1..], rest);
    }
  }

  predicate IsFound(f: Found) {
    NoVariable(f.before) && IsName(f.name) && (f.rest != "" ==> !NameChar(f.rest[0]))
  }

  /** What is found is put together again to the text. */
  lemma FoundIn(s: string)
    requires Find(s).Some?
    ensures var f := Find(s).value; IsFound(f) && s == f.before + (("$" + f.name) + f.rest)
  {
    var n := FirstVar(s);
    var t := s[n + 1..];
    FirstVarBefore(s, n);
    NoVariableIs(s[..n]);
    NameIn(t);
    Halves(s, n, NameRun(t));
  }

  lemma NameIn(t: string)
    requires t != "" && NameStart(t[0])
    ensures IsName(t[..NameRun(t)]) && (t[NameRun(t)..] != "" ==> !NameChar(t[NameRun(t)..][0]))
  {}

  lemma Halves(s: string, n: nat, k: nat)
    requires n < |s| && s[n] == '$' && n + 1 + k <= |s|
    ensures s == s[..n] + (("$" + s[n + 1..][..k]) + s[n + 1..][k..])
  {
    Substr(s, n, k);
    assert s == s[..n + 1 + k] + s[n + 1 + k..];
  }

  lemma {:induction false} FirstVarBefore(s: string, n: nat)
    requires n <= FirstVar(s)
    ensures FirstVar(s[..n]) == n
  {
    if n >= 2 {
      assert s[..n][1..] == s[1..][..n - 1];
      FirstVarBefore(s[1..], n - 1);
    }
  }

  /** A text put together so is found apart so. */
  lemma FindIs(f: Found)
    requires IsFound(f)
    ensures Find(f.before + (("$" + f.name) + f.rest)) == Some(f)
  {
    var t := f.name + f.rest;
    var u := "$" + t;
    NoVariableIs(f.before);
    assert u[0] == '$' && u[1] == f.name[0];
    FirstVarAfter(f.before, u);
    NameRunIs(f.name, f.rest);
    Ends(f.name, f.rest);
    Sliced(f.before, t);
    assert ("$" + f.name) + f.rest == u;
  }

  lemma Ends(a: string, b: string)
    ensures (a + b)[..|a|] == a && (a + b)[|a|..] == b
  {}

  lemma Sliced(a: string, t: string)
    ensures (a + ("$" + t))[..|a|] == a && (a + ("$" + t))[|a| + 1..] == t
  {}

  lemma FirstOfLine(ps: seq<Piece>)
    requires Pieces(ps)
    ensures Line(ps) == "" <==> ps == []
    ensures ps != [] ==> Line(ps)[0] == Show(ps[0])[0]
  {}

  /** Putting pieces in front of pieces. */
  lemma PutPieces(before: string, name: string, ps: seq<Piece>)
    requires Pieces(ps) && IsFound(Found(before, name, Line(ps)))
    ensures Pieces(Put(before, name, ps)) && Line(Put(before, name, ps)) == before + (("$" + name) + Line(ps))
  {
    FirstOfLine(ps);
    var qs := [Var(name)] + ps;
    assert qs[1..] == ps;
    assert Pieces(qs) && Line(qs) == ("$" + name) + Line(ps);
    if before != "" { assert ([Lit(before)] + qs)[1..] == qs; }
  }

  /** There is one way only to cut a text into pieces. */
  lemma {:induction false} TokeniseOfLine(ps: seq<Piece>)
    requires Pieces(ps)
    ensures Tokenise(Line(ps)) == ps
    decreases |ps|
  {
    if ps == [] {
    } else if |ps| == 1 && ps[0].Lit? {
      LoneText(ps);
    } else {
      var before, name, rest := SplitOff(ps);
      TokeniseOfLine(rest);
      TokenisePut(before, name, rest);
    }
  }

  lemma LoneText(ps: seq<Piece>)
    requires Pieces(ps) && |ps| == 1 && ps[0].Lit?
    ensures Tokenise(Line(ps)) == ps
  {
    NoVariableIs(ps[0].text);
    assert Line(ps[1..]) == "";
    assert Line(ps) == ps[0].text;
  }

  lemma SplitOff(ps: seq<Piece>) returns (before: string, name: string, rest: seq<Piece>)
    requires Pieces(ps) && ps != [] && !(|ps| == 1 && ps[0].Lit?)
    ensures ps == Put(before, name, rest) && |rest| < |ps|
    ensures NoVariable(before) && IsName(name) && Pieces(rest) && (rest != [] ==> !NameChar(Show(rest[0])[0]))
  {
    var qs := ps[1..];
    if ps[0].Var? {
      before, name, rest := "", ps[0].name, qs;
    } else {
      before, name, rest := ps[0].text, qs[0].name, qs[1..];
    }
  }

  lemma TokenisePut(before: string, name: string, ps: seq<Piece>)
    requires NoVariable(before) && IsName(name) && Pieces(ps) && (ps != [] ==> !NameChar(Show(ps[0])[0]))
    requires Tokenise(Line(ps)) == ps
    ensures Pieces(Put(before, name, ps)) && Tokenise(Line(Put(before, name, ps))) == Put(before, name, ps)
  {
    FirstOfLine(ps);
    PutPieces(before, name, ps);
    FindIs(Found(before, name, Line(ps)));
  }

  /** Every text has pieces, and nothing of it is lost in them. */
  lemma {:induction false} TokeniseIsPieces(s: string)
    ensures Pieces(Tokenise(s)) && Line(Tokenise(s)) == s
    decreases |s|
  {
    match Find(s)
    case None =>
      NoVariableIs(s);
      assert Line([]) == "";
    case Some(f) =>
      TokeniseIsPieces(f.rest);
      FoundIn(s);
      PutPieces(f.before, f.name, Tokenise(f.rest));
  }

  // ---------- what follows ----------

  /** However a line is cut into text and variables, the loop prints it with each variable
      replaced by its value: what was put in is never looked at again, and the longest
      possible name is the one looked up. */
  lemma SubstituteMeaning(ps: seq<Piece>, env: Env)
    requires Pieces(ps)
    ensures Rendered(Tokenise(Line(ps)), env) == Rendered(ps, env)
    ensures ps == [] ==> Rendered(Tokenise(Line(ps)), env) == ""
    ensures ps != [] ==>
              Rendered(Tokenise(Line(ps)), env) ==
              (if ps[0].Lit? then ps[0].text else if ps[0].name in env then env[ps[0].name] else "$" + ps[0].name) +
              Rendered(Tokenise(Line(ps[1..])), env)
  {
    TokeniseOfLine(ps);
    if ps != [] { TokeniseOfLine(ps[1..]); }
  }

  function Whole(f: Found): string { f.before + (("$" + f.name) + f.rest) }

  /** The characters of a name, one by one. */
  lemma NameCharacters(c: char)
    ensures NameStart(c) <==> c == '_' || IsLetter(c)
    ensures NameChar(c) <==> c == '_' || IsLetter(c) || c in {'0', '1', '2', '3', '4', '5', '6', '7', '8', '9'}
  {}

  predicate IsLetter(c: char) {
    || c in {'A', 'B', 'C', 'D', 'E', 'F', 'G', 'H', 'I', 'J', 'K', 'L', 'M'}
    || c in {'N', 'O', 'P', 'Q', 'R', 'S', 'T', 'U', 'V', 'W', 'X', 'Y', 'Z'}
    || c in {'a', 'b', 'c', 'd', 'e', 'f', 'g', 'h', 'i', 'j', 'k', 'l', 'm'}
    || c in {'n', 'o', 'p', 'q', 'r', 's', 't', 'u', 'v', 'w', 'x', 'y', 'z'}
  }

  /** The first variable of a line is replaced by its value, and stays as it is if it is not
      set; the rest of the line is treated in the same way. */
  lemma VariableReplaced(f: Found, env: Env)
    requires IsFound(f)
    ensures Rendered(Tokenise(Whole(f)), env) ==
            f.before + ((if f.name in env then env[f.name] else "$" + f.name) + Rendered(Tokenise(f.rest), env))
  {
    FindIs(f);
    RenderedPut(f.before, f.name, Tokenise(f.rest), env);
  }

  lemma WholeBetween(f: Found, p: string, t: string)
    ensures p + Whole(f) == Whole(Found(p + f.before, f.name, f.rest))
    ensures Whole(f) + t == Whole(Found(f.before, f.name, f.rest + t))
  {
    Reassociate(p, f.before, ("$" + f.name) + f.rest);
    Reassociate(f.before, ("$" + f.name) + f.rest, t);
    Reassociate("$" + f.name, f.rest, t);
  }

  /** awk works on one line at a time; on the whole file at once it would print the same. */
  lemma {:induction false} LineByLine(a: string, b: string, env: Env)
    ensures Rendered(Tokenise(a + ("\n" + b)), env) == Rendered(Tokenise(a), env) + ("\n" + Rendered(Tokenise(b), env))
    decreases |a|
  {
    match Find(a)
    case Some(f) =>
      LineByLine(f.rest, b, env);
      FoundIn(a);
      var t := "\n" + b;
      WholeBetween(f, "", t);
      VariableReplaced(f, env);
      assert f.rest == "" ==> (f.rest + t)[0] == '\n';
      VariableReplaced(Found(f.before, f.name, f.rest + t), env);
      var v, x, y := Value(Var(f.name), env), Rendered(Tokenise(f.rest), env), "\n" + Rendered(Tokenise(b), env);
      Reassociate(v, x, y);
      Reassociate(f.before, v + x, y);
    case None =>
      LastLine(a, b, env);
  }

  lemma NoVariableJoin(a: string, b: string)
    requires NoVariable(a) && NoVariable(b)
    ensures NoVariable((a + "\n") + b)
  {
    var s := (a + "\n") + b;
    forall i | 0 <= i < |s| - 1 && s[i] == '$'
      ensures !NameStart(s[i + 1])
    {
      if i < |a| - 1 {
        assert s[i] == a[i] && s[i + 1] == a[i + 1];
      } else if i > |a| {
        assert s[i] == b[i - |a| - 1] && s[i + 1] == b[i - |a| - 1 + 1];
      } else {
        assert s[|a|] == '\n';
      }
    }
  }

  lemma LastLine(a: string, b: string, env: Env)
    requires Find(a).None?
    ensures Rendered(Tokenise(a + ("\n" + b)), env) == Rendered(Tokenise(a), env) + ("\n" + Rendered(Tokenise(b), env))
  {
    NoVariableIs(a);
    TextUnchanged(a, env);
    Reassociate(a, "\n", b);
    Reassociate(a, "\n", Rendered(Tokenise(b), env));
    AfterText(a, b, env);
  }

  lemma AfterText(a: string, b: string, env: Env)
    requires NoVariable(a)
    ensures Rendered(Tokenise((a + "\n") + b), env) == (a + "\n") + Rendered(Tokenise(b), env)
  {
    match Find(b)
    case None =>
      NoVariableIs(b);
      NoVariableJoin(a, b);
      NoVariableIs((a + "\n") + b);
      TextUnchanged(b, env);
      TextUnchanged((a + "\n") + b, env);
    case Some(f) =>
      FoundIn(b);
      AfterTextFound(a, f, env);
      WholeBetween(f, a + "\n", "");
  }

  lemma AfterTextFound(a: string, f: Found, env: Env)
    requires NoVariable(a) && IsFound(f)
    ensures Rendered(Tokenise(Whole(Found((a + "\n") + f.before, f.name, f.rest))), env) ==
            (a + "\n") + Rendered(Tokenise(Whole(f)), env)
  {
    NoVariableJoin(a, f.before);
    VariableReplaced(f, env);
    VariableReplaced(Found((a + "\n") + f.before, f.name, f.rest), env);
    Reassociate(a + "\n", f.before, Value(Var(f.name), env) + Rendered(Tokenise(f.rest), env));
  }

  /** A line without variables is printed as it is. */
  lemma TextUnchanged(s: string, env: Env)
    requires NoVariable(s)
    ensures Rendered(Tokenise(s), env) == s
  {
    NoVariableIs(s);
    RenderedLit(s, env);
  }

  lemma SubstitutionOf(line: string, env: Env)
    ensures NoVariable(line) ==> Rendered(Tokenise(line), env) == line
    ensures forall f: Found | IsFound(f) && line == f.before + (("$" + f.name) + f.rest) ::
              Rendered(Tokenise(line), env) ==
              f.before + ((if f.name in env then env[f.name] else "$" + f.name) + Rendered(Tokenise(f.rest), env))
  {
    if NoVariable(line) { TextUnchanged(line, env); }
    forall f: Found | IsFound(f) && line == f.before + (("$" + f.name) + f.rest)
      ensures Rendered(Tokenise(line), env) ==
              f.before + ((if f.name in env then env[f.name] else "$" + f.name) + Rendered(Tokenise(f.rest), env))
    {
      assert line == Whole(f);
      VariableReplaced(f, env);
    }
  }

  /** An environment that maps every name to its own reference changes nothing. */
  lemma {:induction false} SelfReferences(s: string, env: Env)
    requires forall n | n in env :: env[n] == "$" + n
    ensures Rendered(Tokenise(s), env) == s
  {
    TokeniseIsPieces(s);
    SelfRendered(Tokenise(s), env);
  }

  lemma {:induction false} SelfRendered(ps: seq<Piece>, env: Env)
    requires Pieces(ps) && forall n | n in env :: env[n] == "$" + n
    ensures Rendered(ps, env) == Line(ps)
  {
    if ps == [] {
    } else {
      SelfRendered(ps[1..], env);
    }
  }
}
