/** internal/rotatecreds/rotatecreds.go, updateEnvFile: the `.env` file is read into a
    map, some values are replaced, and the map is written back. */
module EnvFile {
  import opened Text

  type Env = map<string, string>

  // ---------- reading ----------

  /** Position of the first '=', or the length. */
  function EqAt(s: string): (n: nat)
    ensures n <= |s| && (n < |s| ==> s[n] == '=')
  {
    if s == "" || s[0] == '=' then 0 else 1 + EqAt(s[1..])
  }

  function ParseEntry(line: string): Option<(string, string)> { EntryOf(TrimSpace(line)) }

  /** The key and the value of a trimmed line. */
  function EntryOf(t: string): Option<(string, string)> {
    if t == "" || HasPrefix(t, "#") then None
    else if EqAt(t) == |t| then None
    else Some((t[..EqAt(t)], t[EqAt(t) + 1..]))
  }

  /** A later line with the same key wins. */
  function Parse(lines: seq<string>): Env {
    if lines == [] then map[]
    else
      var m, e := Parse(lines[..|lines| - 1]), ParseEntry(lines[|lines| - 1]);
      if e.Some? then m[e.value.0 := e.value.1] else m
  }

  function ReadEnv(content: string): Option<Env> {
    if Fits(RawLines(content)) then Some(Parse(ScanLines(content))) else None
  }

  // ---------- changing ----------

  datatype Rotation = Rotation(kind: string, postgresPassword: string, jwtSecret: string,
                               publishableKey: string, secretKey: string)

  function IfGiven(key: string, value: string): Env { if value == "" then map[] else map[key := value] }

  /** The entries a rotation sets: those of its kind that it gives a value for. */
  function Selected(r: Rotation): Option<Env> {
    var postgres := IfGiven("POSTGRES_PASSWORD", r.postgresPassword);
    var jwt := IfGiven("JWT_SECRET", r.jwtSecret);
    var keys := IfGiven("PUBLISHABLE_KEY", r.publishableKey) + IfGiven("SECRET_KEY", r.secretKey);
    if r.kind == "postgres" then Some(postgres)
    else if r.kind == "jwt" then Some(jwt)
    else if r.kind == "api_keys" then Some(keys)
    else if r.kind == "all" then Some(postgres + jwt + keys)
    else None
  }

  // ---------- writing ----------

  const HEADER := "# Supabase instance environment variables"

  const ORDERED := ["INSTANCE_ID", "SUBDOMAIN", "DOMAIN",
                    "POSTGRES_PASSWORD", "JWT_SECRET", "PUBLISHABLE_KEY", "SECRET_KEY", "PGSODIUM_KEY",
                    "KONG_PORT", "POSTGRES_PORT", "STUDIO_PORT"]

  function Entry(key: string, value: string): string { key + "=" + value }

  function EntryLines(m: Env, keys: seq<string>): seq<string>
    requires forall i | 0 <= i < |keys| :: keys[i] in m
  {
    if keys == [] then []
    else
      var n := |keys| - 1;
      EntryLines(m, keys[..n]) + [Entry(keys[n], m[keys[n]])]
  }

  predicate Distinct(s: seq<string>) { forall i, j | 0 <= i < j < |s| :: s[i] != s[j] }

  /** Every key once. */
  predicate IsOrder(m: Env, keys: seq<string>) {
    Distinct(keys) && (forall i | 0 <= i < |keys| :: keys[i] in m) && forall k | k in m :: k in keys
  }

  function EnvText(m: Env, keys: seq<string>): string
    requires forall i | 0 <= i < |keys| :: keys[i] in m
  {
    Unlines([HEADER] + EntryLines(m, keys))
  }

  // ---------- what survives being written and read ----------

  predicate CleanKey(k: string) {
    '=' !in k && NoNewline(k) && (k != "" ==> !IsSpace(k[0]) && k[0] != '#')
  }

  predicate CleanValue(k: string, v: string) {
    NoNewline(v) && (v != "" ==> !IsSpace(v[|v| - 1])) && |k| + 1 + |v| < MAX_LINE
  }

  predicate CleanEnv(m: Env) { forall k | k in m :: CleanKey(k) && CleanValue(k, m[k]) }

  lemma {:induction false} EqAtFirst(s: string)
    ensures '=' !in s[..EqAt(s)]
  {
    if s != "" && s[0] != '=' {
      EqAtFirst(s[1..]);
      assert s[..EqAt(s)] == [s[0]] + s[1..][..EqAt(s[1..])];
    }
  }

  lemma {:induction false} EqAtOf(k: string, v: string)
    requires '=' !in k
    ensures EqAt(k + ("=" + v)) == |k|
  {
    if k == "" {
      assert k + ("=" + v) == "=" + v;
    } else {
      EqAtOf(k[1..], v);
      assert (k + ("=" + v))[1..] == k[1..] + ("=" + v);
    }
  }

  lemma {:induction false} EntryShape(k: string, v: string)
    requires CleanKey(k) && CleanValue(k, v)
    ensures var t := Entry(k, v);
            && t[0] == (if k == "" then '=' else k[0]) && Trimmed(t)
            && NoNewline(t) && DropCR(t) == t && |t| < MAX_LINE
  {
    var t := Entry(k, v);
    assert t[|t| - 1] == if v == "" then '=' else v[|v| - 1];
  }

  lemma {:induction false} EntryRoundTrip(k: string, v: string)
    requires CleanKey(k) && CleanValue(k, v)
    ensures ParseEntry(Entry(k, v)) == Some((k, v))
  {
    EntryShape(k, v);
    Assoc(k, v);
    EqAtOf(k, v);
    CutAtEq(k, v);
    ParseTrimmed(k + ("=" + v));
  }

  lemma ParseTrimmed(t: string)
    requires Trimmed(t) && t != "" && t[0] != '#' && EqAt(t) < |t|
    ensures ParseEntry(t) == Some((t[..EqAt(t)], t[EqAt(t) + 1..]))
  {
    TrimSpaceOfTrimmed(t);
    NotAComment(t);
  }

  lemma NotAComment(t: string)
    requires t != "" && t[0] != '#' && EqAt(t) < |t|
    ensures EntryOf(t) == Some((t[..EqAt(t)], t[EqAt(t) + 1..]))
  {
    NoHash(t);
  }

  lemma NoHash(t: string)
    requires t != "" && t[0] != '#'
    ensures !HasPrefix(t, "#")
  {
    assert t[..1] == [t[0]];
  }

  lemma Assoc(k: string, v: string)
    ensures Entry(k, v) == k + ("=" + v)
  {}

  lemma CutAtEq(k: string, v: string)
    ensures (k + ("=" + v))[..|k|] == k && (k + ("=" + v))[|k| + 1..] == v
  {}

  lemma {:induction false} ParsedEntryClean(line: string)
    requires ParseEntry(line).Some? && NoNewline(line) && |line| < MAX_LINE
    ensures var e := ParseEntry(line).value; CleanKey(e.0) && CleanValue(e.0, e.1)
  {
    var t := TrimSpace(line);
    var n := EqAt(t);
    EqAtFirst(t);
    assert NoNewline(t);
    assert t[..1] != "#" ==> t[0] != '#' by { assert t[..1] == [t[0]]; }
    assert forall c :: c in t[..n] ==> c in t;
    assert forall c :: c in t[n + 1..] ==> c in t;
  }

  /** A line sets a key if and only if, without the space around it, it is the key, "=" and
      the value, where the key is free of "=" and no comment starts. */
  lemma ParseEntryMeaning(line: string, k: string, v: string)
    ensures ParseEntry(line) == Some((k, v)) <==>
            TrimSpace(line) == k + ("=" + v) && '=' !in k && (k == "" || k[0] != '#')
  {
    var t := TrimSpace(line);
    if ParseEntry(line) == Some((k, v)) { EntryParts(t); }
    if t == k + ("=" + v) && '=' !in k && (k == "" || k[0] != '#') {
      EqAtOf(k, v);
      CutAtEq(k, v);
      assert t[0] == if k == "" then '=' else k[0];
      NotAComment(t);
    }
  }

  lemma EntryParts(t: string)
    requires EntryOf(t).Some?
    ensures var e := EntryOf(t).value; t == e.0 + ("=" + e.1) && '=' !in e.0 && (e.0 == "" || e.0[0] != '#')
  {
    EqAtFirst(t);
    assert t[..1] == [t[0]];
  }

  /** Whatever the file, what is read from it is clean. */
  lemma {:induction false} ParsedClean(lines: seq<string>)
    requires AllLines(lines) && Fits(lines)
    ensures CleanEnv(Parse(lines))
  {
    if lines == [] {
    } else {
      var n := |lines| - 1;
      ParsedClean(lines[..n]);
      if ParseEntry(lines[n]).Some? { ParsedEntryClean(lines[n]); }
    }
  }

  lemma {:induction false} ReadClean(content: string)
    requires ReadEnv(content).Some?
    ensures CleanEnv(ReadEnv(content).value)
  {
    var raw, lines := RawLines(content), ScanLines(content);
    forall i | 0 <= i < |lines|
      ensures NoNewline(lines[i]) && |lines[i]| < MAX_LINE
    {
      assert lines[i] == DropCR(raw[i]) <= raw[i];
      assert forall c :: c in lines[i] ==> c in raw[i];
    }
    ParsedClean(lines);
  }

  function Only(m: Env, keys: seq<string>): Env { map k | k in m && k in keys :: m[k] }

  lemma {:induction false} ParseSnoc(lines: seq<string>, line: string)
    ensures var m, e := Parse(lines), ParseEntry(line);
            Parse(lines + [line]) == if e.Some? then m[e.value.0 := e.value.1] else m
  {
    assert (lines + [line])[..|lines|] == lines;
  }

  lemma {:induction false} ParseNext(lines: seq<string>, i: nat)
    requires i < |lines|
    ensures var m, e := Parse(lines[..i]), ParseEntry(lines[i]);
            Parse(lines[..i + 1]) == if e.Some? then m[e.value.0 := e.value.1] else m
  {
    assert lines[..i + 1] == lines[..i] + [lines[i]];
    ParseSnoc(lines[..i], lines[i]);
  }

  lemma {:induction false} ParseAfter(first: string, m: Env, keys: seq<string>)
    requires ParseEntry(first) == None && CleanEnv(m) && Distinct(keys)
    requires forall i | 0 <= i < |keys| :: keys[i] in m
    ensures Parse([first] + EntryLines(m, keys)) == Only(m, keys)
  {
    if keys == [] {
      ParseSnoc([], first);
      assert [] + [first] == [first] + EntryLines(m, keys);
    } else {
      var n := |keys| - 1;
      var k := keys[n];
      var front := [first] + EntryLines(m, keys[..n]);
      ParseAfter(first, m, keys[..n]);
      assert [first] + EntryLines(m, keys) == front + [Entry(k, m[k])];
      ParseSnoc(front, Entry(k, m[k]));
      EntryRoundTrip(k, m[k]);
      OnlyNext(m, keys, n);
    }
  }

  lemma {:induction false} OnlyNext(m: Env, keys: seq<string>, n: nat)
    requires n + 1 == |keys| && keys[n] in m
    ensures Only(m, keys) == Only(m, keys[..n])[keys[n] := m[keys[n]]]
  {
    assert keys == keys[..n] + [keys[n]];
    assert forall k :: k in keys <==> k in keys[..n] || k == keys[n];
  }

  lemma HeaderText()
    ensures NoNewline(HEADER) && |HEADER| == 41 && HEADER[0] == '#' && HEADER[40] == 's'
  {}

  lemma {:induction false} CommentIgnored(line: string)
    requires line != "" && line[0] == '#' && !IsSpace(line[|line| - 1])
    ensures ParseEntry(line) == None
  {
    TrimSpaceOfTrimmed(line);
    assert line[..1] == [line[0]];
  }

  lemma {:induction false} HeaderIsComment()
    ensures ParseEntry(HEADER) == None
  {
    HeaderText();
    CommentIgnored(HEADER);
  }

  predicate Scannable(lines: seq<string>) {
    forall i | 0 <= i < |lines| :: NoNewline(lines[i]) && DropCR(lines[i]) == lines[i]
  }

  lemma {:induction false} ScanScannable(lines: seq<string>)
    requires Scannable(lines) && Fits(lines)
    ensures RawLines(Unlines(lines)) == lines && ScanLines(Unlines(lines)) == lines
  {
    ScanUnlines(lines);
  }

  lemma {:induction false} WrittenLines(m: Env, keys: seq<string>)
    requires CleanEnv(m) && forall i | 0 <= i < |keys| :: keys[i] in m
    ensures Scannable(EntryLines(m, keys)) && Fits(EntryLines(m, keys))
  {
    if keys == [] {
    } else {
      var n := |keys| - 1;
      WrittenLines(m, keys[..n]);
      CleanEntry(m, keys[n]);
      WithLast(EntryLines(m, keys[..n]), Entry(keys[n], m[keys[n]]));
    }
  }

  lemma CleanEntry(m: Env, k: string)
    requires CleanEnv(m) && k in m
    ensures var t := Entry(k, m[k]); NoNewline(t) && DropCR(t) == t && |t| < MAX_LINE
  {
    EntryShape(k, m[k]);
  }

  lemma WithLast(lines: seq<string>, last: string)
    requires Scannable(lines) && Fits(lines) && NoNewline(last) && DropCR(last) == last && |last| < MAX_LINE
    ensures Scannable(lines + [last]) && Fits(lines + [last])
  {}

  lemma {:induction false} CleanRoundTrip(m: Env, keys: seq<string>)
    requires CleanEnv(m) && IsOrder(m, keys)
    ensures ReadEnv(EnvText(m, keys)) == Some(m)
  {
    WrittenFile(m, keys);
    HeaderIsComment();
    ReadLines(HEADER, m, keys);
  }

  lemma {:induction false} ReadLines(first: string, m: Env, keys: seq<string>)
    requires CleanEnv(m) && IsOrder(m, keys) && ParseEntry(first) == None
    requires Scannable([first] + EntryLines(m, keys)) && Fits([first] + EntryLines(m, keys))
    ensures ReadEnv(Unlines([first] + EntryLines(m, keys))) == Some(m)
  {
    ScanScannable([first] + EntryLines(m, keys));
    ParseAfter(first, m, keys);
    assert Only(m, keys) == m;
  }

  lemma {:induction false} WrittenFile(m: Env, keys: seq<string>)
    requires CleanEnv(m) && forall i | 0 <= i < |keys| :: keys[i] in m
    ensures Scannable([HEADER] + EntryLines(m, keys)) && Fits([HEADER] + EntryLines(m, keys))
  {
    HeaderText();
    assert DropCR(HEADER) == HEADER;
    WrittenLines(m, keys);
    WithFirst(HEADER, EntryLines(m, keys));
  }

  lemma WithFirst(first: string, lines: seq<string>)
    requires Scannable(lines) && Fits(lines) && NoNewline(first) && DropCR(first) == first && |first| < MAX_LINE
    ensures Scannable([first] + lines) && Fits([first] + lines)
  {}

  /** A written map is read back, in whatever order its keys were written, exactly when
      all its entries are clean. */
  lemma {:induction false} RoundTrip(m: Env, keys: seq<string>)
    requires IsOrder(m, keys)
    ensures ReadEnv(EnvText(m, keys)) == Some(m) <==> CleanEnv(m)
  {
    if CleanEnv(m) { CleanRoundTrip(m, keys); }
    if ReadEnv(EnvText(m, keys)) == Some(m) { ReadClean(EnvText(m, keys)); }
  }

  /** Of several lines with one key, the last one counts. */
  lemma {:induction false} LastWins(lines: seq<string>, i: nat)
    requires i < |lines| && ParseEntry(lines[i]).Some?
    requires var k := ParseEntry(lines[i]).value.0;
             forall j | i < j < |lines| :: ParseEntry(lines[j]).None? || ParseEntry(lines[j]).value.0 != k
    ensures var e := ParseEntry(lines[i]).value; e.0 in Parse(lines) && Parse(lines)[e.0] == e.1
  {
    if i < |lines| - 1 {
      LastWins(lines[..|lines| - 1], i);
    }
  }

  lemma {:induction false} WrittenEntry(m: Env, keys: seq<string>, i: nat)
    requires CleanEnv(m) && i < |keys| && forall j | 0 <= j < |keys| :: keys[j] in m
    ensures |EntryLines(m, keys)| == |keys| && ParseEntry(EntryLines(m, keys)[i]) == Some((keys[i], m[keys[i]]))
  {
    var n := |keys| - 1;
    WrittenLength(m, keys);
    WrittenLength(m, keys[..n]);
    if i < n { WrittenEntry(m, keys[..n], i); } else { EntryRoundTrip(keys[n], m[keys[n]]); }
  }

  lemma {:induction false} WrittenLength(m: Env, keys: seq<string>)
    requires forall j | 0 <= j < |keys| :: keys[j] in m
    ensures |EntryLines(m, keys)| == |keys|
  {
    if keys == [] {
    } else {
      WrittenLength(m, keys[..|keys| - 1]);
    }
  }

  /** No two lines of a written file set the same key. */
  lemma {:induction false} WrittenOnce(m: Env, keys: seq<string>, i: nat, j: nat)
    requires CleanEnv(m) && IsOrder(m, keys) && i < j < |EntryLines(m, keys)|
    ensures var a, b := ParseEntry(EntryLines(m, keys)[i]), ParseEntry(EntryLines(m, keys)[j]);
            a.Some? && b.Some? && a.value.0 != b.value.0
  {
    WrittenLength(m, keys);
    WrittenEntry(m, keys, i);
    WrittenEntry(m, keys, j);
  }

  // ---------- one rotation ----------

  /** Which keys a rotation may set, by its kind. */
  function KeysOf(kind: string): set<string> {
    if kind == "postgres" then {"POSTGRES_PASSWORD"}
    else if kind == "jwt" then {"JWT_SECRET"}
    else if kind == "api_keys" then {"PUBLISHABLE_KEY", "SECRET_KEY"}
    else if kind == "all" then {"POSTGRES_PASSWORD", "JWT_SECRET", "PUBLISHABLE_KEY", "SECRET_KEY"}
    else {}
  }

  lemma {:induction false} SelectedKeys(r: Rotation)
    requires Selected(r).Some?
    ensures Selected(r).value.Keys <= KeysOf(r.kind)
    ensures forall k | k in Selected(r).value :: Selected(r).value[k] != ""
  {}

  lemma {:induction false} CredentialKeysClean(k: string)
    requires k in {"POSTGRES_PASSWORD", "JWT_SECRET", "PUBLISHABLE_KEY", "SECRET_KEY"}
    ensures CleanKey(k)
  {}

  lemma {:induction false} SelectedClean(r: Rotation)
    requires Selected(r).Some?
    ensures forall k | k in Selected(r).value :: CleanKey(k)
  {
    SelectedKeys(r);
    forall k | k in Selected(r).value
      ensures CleanKey(k)
    {
      assert k in KeysOf(r.kind);
      CredentialKeysClean(k);
    }
  }

  /** The key has the value if it is covered and the value is not empty; otherwise it is as it was. */
  predicate SetTo(was: Env, m: Env, key: string, covered: bool, value: string) {
    if covered && value != "" then key in m && m[key] == value else SameAt(was, m, key)
  }

  predicate SameAt(was: Env, m: Env, key: string) {
    (key in m <==> key in was) && (key in m ==> m[key] == was[key])
  }

  /** What a rotation makes of each key. */
  ghost predicate Rotated(was: Env, r: Rotation, m: Env) {
    && SetTo(was, m, "POSTGRES_PASSWORD", r.kind == "postgres" || r.kind == "all", r.postgresPassword)
    && SetTo(was, m, "JWT_SECRET", r.kind == "jwt" || r.kind == "all", r.jwtSecret)
    && SetTo(was, m, "PUBLISHABLE_KEY", r.kind == "api_keys" || r.kind == "all", r.publishableKey)
    && SetTo(was, m, "SECRET_KEY", r.kind == "api_keys" || r.kind == "all", r.secretKey)
    && forall k | k !in {"POSTGRES_PASSWORD", "JWT_SECRET", "PUBLISHABLE_KEY", "SECRET_KEY"} :: SameAt(was, m, k)
  }

  lemma SelectedRotates(was: Env, r: Rotation)
    ensures Selected(r).Some? <==> r.kind in {"postgres", "jwt", "api_keys", "all"}
    ensures Selected(r).Some? ==> Rotated(was, r, was + Selected(r).value)
  {
    if Selected(r).Some? {
      SelectedEach(r);
      SelectedKeys(r);
      forall k | k !in {"POSTGRES_PASSWORD", "JWT_SECRET", "PUBLISHABLE_KEY", "SECRET_KEY"}
        ensures SameAt(was, was + Selected(r).value, k)
      {
        assert k !in KeysOf(r.kind);
      }
    }
  }

  lemma SelectedEach(r: Rotation)
    requires Selected(r).Some?
    ensures SetTo(map[], Selected(r).value, "POSTGRES_PASSWORD", r.kind == "postgres" || r.kind == "all", r.postgresPassword)
    ensures SetTo(map[], Selected(r).value, "JWT_SECRET", r.kind == "jwt" || r.kind == "all", r.jwtSecret)
    ensures SetTo(map[], Selected(r).value, "PUBLISHABLE_KEY", r.kind == "api_keys" || r.kind == "all", r.publishableKey)
    ensures SetTo(map[], Selected(r).value, "SECRET_KEY", r.kind == "api_keys" || r.kind == "all", r.secretKey)
  {}

  /** After a rotation the file says exactly the updated map, whatever the order of the
      remaining keys, if and only if every new value fits on its line and keeps its end:
      no newline, no space at the end, not too long. */
  lemma {:induction false} RotationRoundTrip(content: string, r: Rotation, keys: seq<string>)
    requires ReadEnv(content).Some? && Selected(r).Some?
    requires IsOrder(ReadEnv(content).value + Selected(r).value, keys)
    ensures var m := ReadEnv(content).value + Selected(r).value;
            ReadEnv(EnvText(m, keys)) == Some(m) <==>
            forall k | k in Selected(r).value :: CleanValue(k, Selected(r).value[k])
  {
    var m, sel := ReadEnv(content).value, Selected(r).value;
    ReadClean(content);
    SelectedClean(r);
    RoundTrip(m + sel, keys);
    CleanUpdate(m, sel);
  }

  lemma CleanUpdate(m: Env, sel: Env)
    requires CleanEnv(m) && forall k | k in sel :: CleanKey(k)
    ensures CleanEnv(m + sel) <==> forall k | k in sel :: CleanValue(k, sel[k])
  {
    var u := m + sel;
    if CleanEnv(u) {
      forall k | k in sel
        ensures CleanValue(k, sel[k])
      {
        assert k in u && u[k] == sel[k];
      }
    }
  }

  /** Keys of another kind keep the value they had. */
  lemma {:induction false} OtherKeysKept(content: string, r: Rotation, k: string)
    requires ReadEnv(content).Some? && Selected(r).Some? && k !in KeysOf(r.kind)
    ensures var m := ReadEnv(content).value;
            var after := m + Selected(r).value;
            (k in m <==> k in after) && (k in m ==> after[k] == m[k])
  {
    SelectedKeys(r);
  }

  class File {
    var content: string

    constructor (content: string)
      ensures this.content == content
    {
      this.content := content;
    }

    /** os.WriteFile; a failure may leave anything. */
    method Write(text: string, works: bool) returns (ok: bool)
      modifies this
      ensures ok == works && (works ==> content == text)
    {
      ok := works;
      if works { content := text; } else { content := *; }
    }
  }

  method ParseLines(content: string) returns (r: Option<Env>)
    ensures r == ReadEnv(content)
  {
    var lines := ScanLines(content);
    if !Fits(RawLines(content)) { return None; }
    var m: Env := map[];
    for i := 0 to |lines|
      invariant m == Parse(lines[..i])
    {
      ParseNext(lines, i);
      var e := ParseEntry(lines[i]);
      if e.Some? {
        m := m[e.value.0 := e.value.1];
      }
    }
    assert lines[..|lines|] == lines;
    r := Some(m);
  }

  lemma {:induction false} EntryLinesNext(m: Env, keys: seq<string>, k: string)
    requires k in m && forall j | 0 <= j < |keys| :: keys[j] in m
    ensures EnvText(m, keys + [k]) == EnvText(m, keys) + (Entry(k, m[k]) + "\n")
  {
    assert (keys + [k])[..|keys|] == keys;
    var lines := [HEADER] + EntryLines(m, keys);
    assert [HEADER] + EntryLines(m, keys + [k]) == lines + [Entry(k, m[k])];
    UnlinesAppend(lines, [Entry(k, m[k])]);
    assert Unlines([Entry(k, m[k])]) == Entry(k, m[k]) + "\n";
  }

  /** Those of the listed keys that are set, in their order. */
  function SetKeys(m: Env, listed: seq<string>): seq<string> {
    if listed == [] then []
    else
      var n := |listed| - 1;
      SetKeys(m, listed[..n]) + if listed[n] in m then [listed[n]] else []
  }

  /** The well-known keys first, the others as the map's iteration gives them. */
  method PrintEnv(m: Env) returns (text: string, ghost keys: seq<string>)
    ensures IsOrder(m, keys) && text == EnvText(m, keys)
    ensures SetKeys(m, ORDERED) <= keys
    ensures ReadEnv(text) == Some(m) <==> CleanEnv(m)
  {
    OrderedDistinct();
    text, keys := PrintOrdered(m, ORDERED);
    RoundTrip(m, keys);
  }

  method PrintOrdered(m: Env, ordered: seq<string>) returns (text: string, ghost keys: seq<string>)
    requires Distinct(ordered)
    ensures IsOrder(m, keys) && text == EnvText(m, keys)
    ensures SetKeys(m, ordered) <= keys
  {
    var written;
    text, written, keys := PrintListed(m, ordered);
    var rest := m.Keys - written;
    while rest != {}
      invariant rest == m.Keys - written && SetKeys(m, ordered) <= keys
      invariant Progress(m, keys, written, text)
      decreases |rest|
    {
      var key :| key in rest;
      ProgressNext(m, keys, written, text, key);
      text := text + (Entry(key, m[key]) + "\n");
      written := written + {key};
      keys := keys + [key];
      rest := rest - {key};
    }
  }

  method PrintListed(m: Env, ordered: seq<string>) returns (text: string, written: set<string>, ghost keys: seq<string>)
    requires Distinct(ordered)
    ensures Progress(m, keys, written, text) && keys == SetKeys(m, ordered)
  {
    keys := [];
    text := HEADER + "\n";
    written := {};
    ProgressStart(m);
    for i := 0 to |ordered|
      invariant Progress(m, keys, written, text) && keys == SetKeys(m, ordered[..i])
      invariant forall k | k in written :: k in ordered[..i]
    {
      var key := ordered[i];
      SetKeysNext(m, ordered, i);
      if key in m {
        ProgressNext(m, keys, written, text, key);
        text := text + (Entry(key, m[key]) + "\n");
        written := written + {key};
        keys := keys + [key];
      }
    }
    assert ordered[..|ordered|] == ordered;
  }

  lemma SetKeysNext(m: Env, ordered: seq<string>, i: nat)
    requires i < |ordered| && Distinct(ordered)
    ensures SetKeys(m, ordered[..i + 1]) == SetKeys(m, ordered[..i]) + if ordered[i] in m then [ordered[i]] else []
    ensures ordered[i] !in ordered[..i] && ordered[..i + 1] == ordered[..i] + [ordered[i]]
  {
    assert ordered[..i + 1][..i] == ordered[..i];
  }

  lemma ProgressStart(m: Env)
    ensures Progress(m, [], {}, HEADER + "\n")
  {
    assert Unlines([HEADER]) == HEADER + "\n" + Unlines([]);
    assert [HEADER] + EntryLines(m, []) == [HEADER];
  }

  lemma {:induction false} ProgressNext(m: Env, keys: seq<string>, written: set<string>, text: string, k: string)
    requires Progress(m, keys, written, text) && k in m && k !in written
    ensures Progress(m, keys + [k], written + {k}, text + (Entry(k, m[k]) + "\n"))
  {
    EntryLinesNext(m, keys, k);
    assert forall x :: x in keys + [k] <==> x in keys || x == k;
  }

  lemma OrderedDistinct()
    ensures Distinct(ORDERED)
  {}

  ghost predicate Progress(m: Env, keys: seq<string>, written: set<string>, text: string) {
    && Distinct(keys) && (forall j | 0 <= j < |keys| :: keys[j] in m)
    && (forall k :: k in keys <==> k in written)
    && text == EnvText(m, keys)
  }

  /** A rotation of unknown kind or a file that cannot be read changes nothing. Otherwise,
      if the file can be written, it holds the updated map, each key once and the well-known
      ones first. */
  method UpdateEnvFile(file: File, r: Rotation, works: bool) returns (ok: bool, ghost m: Env, ghost keys: seq<string>)
    modifies file
    ensures ReadEnv(old(file.content)).None? || r.kind !in {"postgres", "jwt", "api_keys", "all"} ==>
              !ok && file.content == old(file.content)
    ensures ok <==> works && ReadEnv(old(file.content)).Some? && r.kind in {"postgres", "jwt", "api_keys", "all"}
    ensures ok ==> Rotated(ReadEnv(old(file.content)).value, r, m)
    ensures ok ==> IsOrder(m, keys) && SetKeys(m, ORDERED) <= keys && file.content == EnvText(m, keys)
    ensures ok ==> (ReadEnv(file.content) == Some(m) <==> CleanEnv(m))
  {
    m, keys := map[], [];
    var env := ParseLines(file.content);
    if env.None? { return false, m, []; }
    var sel := Selected(r);
    SelectedRotates(env.value, r);
    if sel.None? { return false, m, []; }
    m := env.value + sel.value;
    var text;
    text, keys := PrintEnv(env.value + sel.value);
    ok := file.Write(text, works);
  }
}
