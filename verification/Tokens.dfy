/** internal/daemon/daemon.go: the two token files, read before every connection and
    rotated after the handshake. A write first empties the file, then fills it; the
    daemon can stop after any of these steps, or the write can fail part way. */
module Tokens {
  import opened Text

  datatype Files = Files(session: Option<string>, bootstrap: Option<string>)

  /** A file that is there and not empty. */
  function Usable(file: Option<string>): Option<string> {
    if file.Some? && file.value != "" then Some(TrimSpace(file.value)) else None
  }

  /** readToken: the session file first, then the bootstrap file. */
  function ReadToken(f: Files): Option<string> {
    if Usable(f.session).Some? then Usable(f.session) else Usable(f.bootstrap)
  }

  // ---------- the states a rotation goes through ----------

  datatype Point = Before | Emptied | Torn(n: nat) | Written | Removed

  /** The files at a point of a rotation; `Torn(n)` has only the first n characters. */
  function At(f: Files, token: string, p: Point): Files
    requires p.Torn? ==> p.n <= |token|
  {
    match p
    case Before => f
    case Emptied => f.(session := Some(""))
    case Torn(n) => f.(session := Some(token[..n]))
    case Written => f.(session := Some(token))
    case Removed => Files(Some(token), None)
  }

  /** At this point the token read is one the gateway knows: the one before or the new one. */
  predicate Safe(f: Files, token: string, p: Point)
    requires p.Torn? ==> p.n <= |token|
  {
    var t := ReadToken(At(f, token, p));
    t.Some? && (t == ReadToken(f) || t == Some(TrimSpace(token)))
  }

  /** The bootstrap file is still there and holds the token in use, or the new one. */
  predicate Covered(f: Files, token: string) {
    Usable(f.bootstrap).Some? &&
    (Usable(f.bootstrap) == ReadToken(f) || Usable(f.bootstrap) == Some(TrimSpace(token)))
  }

  /** What safety of a point comes to: something must be left to read, and what is read
      must be the token in use or the whole of the new one. */
  predicate SafeWhen(f: Files, token: string, p: Point)
    requires p.Torn? ==> p.n <= |token|
  {
    match p
    case Before => ReadToken(f).Some?
    case Emptied => Covered(f, token)
    case Torn(n) =>
      if n == 0 then Covered(f, token)
      else AllSpace(token[n..]) || ReadToken(f) == Some(TrimSpace(token[..n]))
    case Written => token != "" || Covered(f, token)
    case Removed => token != ""
  }

  /** Every point of every rotation: an emptied file is safe exactly when the bootstrap file
      covers it, a torn one exactly when only spaces are missing or the part that is there is
      the token in use. */
  lemma {:induction false} RotationSafe(f: Files, token: string, p: Point)
    requires p.Torn? ==> p.n <= |token|
    ensures Safe(f, token, p) <==> SafeWhen(f, token, p)
  {
    if p.Torn? && p.n > 0 {
      CutTrim(token, p.n);
    }
  }

  /** For a token as gateways send it, without spaces around it, the torn file is safe only
      by accident: when its part is the token in use. */
  lemma {:induction false} TornTokenSafe(f: Files, token: string, n: nat)
    requires Trimmed(token) && 0 < n < |token|
    ensures Safe(f, token, Torn(n)) <==> ReadToken(f) == Some(TrimSpace(token[..n]))
  {
    RotationSafe(f, token, Torn(n));
    assert !IsSpace(token[n..][|token| - n - 1]);
  }

  predicate NoSpace(s: string) { forall i | 0 <= i < |s| :: !IsSpace(s[i]) }

  /** So every torn point is safe for tokens of one character, for those of two whose first
      one is the token in use, and for no others. */
  lemma {:induction false} SomeTornPointUnsafe(f: Files, token: string)
    requires NoSpace(token)
    ensures (forall n | 0 < n < |token| :: Safe(f, token, Torn(n))) <==>
            |token| <= 1 || (|token| == 2 && ReadToken(f) == Some(token[..1]))
  {
    forall n | 0 < n < |token|
      ensures Safe(f, token, Torn(n)) <==> ReadToken(f) == Some(token[..n])
    {
      TornTokenSafe(f, token, n);
      TrimSpaceOfTrimmed(token[..n]);
    }
    if |token| > 2 {
      assert |token[..1]| != |token[..2]|;
      assert !Safe(f, token, Torn(1)) || !Safe(f, token, Torn(2));
    }
  }

  /** A torn session file hides the bootstrap file, intact or not. */
  lemma TornHidesBootstrap(f: Files, token: string, n: nat, bootstrap: Option<string>)
    requires 0 < n <= |token|
    ensures ReadToken(At(f.(bootstrap := bootstrap), token, Torn(n))) == Some(TrimSpace(token[..n]))
  {}

  /** In the first rotation the bootstrap file covers every point but the torn ones, which
      it cannot, although it is still there. */
  lemma {:induction false} FirstRotationSafe(f: Files, token: string, p: Point)
    requires Usable(f.session).None? && Usable(f.bootstrap).Some? && token != "" && (p.Torn? ==> p.n <= |token|)
    ensures Safe(f, token, p) <==>
            (p.Torn? && p.n > 0 ==> AllSpace(token[p.n..]) || Usable(f.bootstrap) == Some(TrimSpace(token[..p.n])))
  {
    RotationSafe(f, token, p);
  }

  /** In any rotation after a completed one nothing covers it: while the session file is
      empty there is no token at all. */
  lemma {:induction false} NextRotationCanLoseTheToken(f: Files, first: string, second: string)
    requires ReadToken(f).Some? && first != ""
    ensures var g := At(f, first, Removed);
            ReadToken(g) == Some(TrimSpace(first)) && ReadToken(At(g, second, Emptied)) == None
  {}

  /** A completed rotation leaves a token exactly when the new one is not empty; with an
      empty one it has removed the only usable file. */
  lemma RotationLeavesAToken(f: Files, token: string)
    ensures ReadToken(At(f, token, Removed)).Some? <==> token != ""
  {}

  // ---------- many rotations ----------

  /** How far a rotation to a token got before the daemon stopped or the write failed. */
  datatype Rotation = Rotation(token: string, reached: Point)

  predicate IsHistory(h: seq<Rotation>) {
    forall i | 0 <= i < |h| :: h[i].reached.Torn? ==> h[i].reached.n <= |h[i].token|
  }

  /** The files after one rotation after the other. */
  function FilesAfter(f: Files, h: seq<Rotation>): Files
    requires IsHistory(h)
  {
    if h == [] then f
    else
      var last := h[|h| - 1];
      At(FilesAfter(f, h[..|h| - 1]), last.token, last.reached)
  }

  /** The last rotation that changed anything. */
  function LastBegun(h: seq<Rotation>): (r: Option<Rotation>)
    ensures r.Some? ==> r.value in h
  {
    if h == [] then None
    else if h[|h| - 1].reached.Before? then LastBegun(h[..|h| - 1])
    else Some(h[|h| - 1])
  }

  /** What a rotation that began leaves in the session file. */
  function LeftBy(r: Rotation): string
    requires r.reached.Torn? ==> r.reached.n <= |r.token|
  {
    if r.reached.Emptied? then "" else if r.reached.Torn? then r.token[..r.reached.n] else r.token
  }

  predicate SomeCompleted(h: seq<Rotation>) { exists r | r in h :: r.reached.Removed? }

  lemma {:induction false} SomeCompletedNext(h: seq<Rotation>)
    requires h != []
    ensures SomeCompleted(h) <==> SomeCompleted(h[..|h| - 1]) || h[|h| - 1].reached.Removed?
  {
    var front, last := h[..|h| - 1], h[|h| - 1];
    assert h == front + [last];
    assert forall r :: r in h <==> r in front || r == last;
  }

  lemma {:induction false} FilesAfterAre(f: Files, h: seq<Rotation>)
    requires IsHistory(h)
    ensures FilesAfter(f, h).bootstrap == if SomeCompleted(h) then None else f.bootstrap
    ensures FilesAfter(f, h).session == if LastBegun(h).None? then f.session else Some(LeftBy(LastBegun(h).value))
  {
    if h == [] {
    } else {
      FilesAfterAre(f, h[..|h| - 1]);
      SomeCompletedNext(h);
    }
  }

  /** The token after any number of rotations, each completed or stopped at any point, is
      what the last one that began left of its token; with nothing left, the bootstrap
      token, unless one rotation was completed. */
  lemma {:induction false} TokenAfter(f: Files, h: seq<Rotation>)
    requires IsHistory(h) && LastBegun(h).Some?
    ensures var left := LeftBy(LastBegun(h).value);
            ReadToken(FilesAfter(f, h)) ==
            if left != "" then Some(TrimSpace(left)) else if SomeCompleted(h) then None else Usable(f.bootstrap)
  {
    FilesAfterAre(f, h);
  }

  /** Starting from a usable bootstrap file, the daemon is left without a token exactly when
      one rotation was completed and the last that began has left nothing. */
  lemma {:induction false} TokenLost(f: Files, h: seq<Rotation>)
    requires IsHistory(h) && Usable(f.bootstrap).Some?
    ensures ReadToken(FilesAfter(f, h)) == None <==>
            SomeCompleted(h) && LastBegun(h).Some? && LeftBy(LastBegun(h).value) == ""
  {
    FilesAfterAre(f, h);
    if LastBegun(h).None? { NoneBegun(h); }
  }

  lemma {:induction false} NoneBegun(h: seq<Rotation>)
    requires LastBegun(h).None?
    ensures !SomeCompleted(h)
  {
    if h == [] {
    } else {
      NoneBegun(h[..|h| - 1]);
      SomeCompletedNext(h);
    }
  }

  // ---------- the code ----------

  class Store {
    var session: Option<string>
    var bootstrap: Option<string>
    ghost var seen: seq<Files>

    ghost function Now(): Files
      reads this
    {
      Files(session, bootstrap)
    }

    constructor (session: Option<string>, bootstrap: Option<string>)
      ensures Now() == Files(session, bootstrap) && seen == [Now()]
    {
      this.session, this.bootstrap, seen := session, bootstrap, [Files(session, bootstrap)];
    }

    /** os.WriteFile on the session file. */
    method WriteSession(token: string, works: bool) returns (ok: bool, ghost points: seq<Point>)
      modifies this
      ensures ok == works && bootstrap == old(bootstrap)
      ensures PointsWf(points, token) && seen == old(seen) + States(old(Now()), token, points)
      ensures forall i | 0 <= i < |points| :: !points[i].Removed?
      ensures works ==> points == [Emptied, Written] && session == Some(token)
      ensures points != [] ==> Now() == At(old(Now()), token, points[|points| - 1])
    {
      ok, points := works, [];
      ghost var f, before := Now(), seen;
      var begun: bool := *;
      if !works && !begun { return; }
      session := Some("");
      seen := seen + [Now()];
      var n: nat :| n <= |token|;
      if works { n := |token|; }
      ghost var last := if works then Written else Torn(n);
      session := Some(token[..n]);
      assert Now() == At(f, token, last) by { assert token[..|token|] == token; }
      seen := seen + [Now()];
      points := [Emptied, last];
      TwoStates(f, token, last);
      assert seen == before + [At(f, token, Emptied), At(f, token, last)];
    }

    /** rotateToken. Every state on the way is a point of the rotation, and the bootstrap
        file goes only after the session file holds the whole new token. */
    method RotateToken(token: string, writable: bool, removable: bool) returns (ok: bool, ghost points: seq<Point>)
      modifies this
      ensures ok == writable && (writable ==> session == Some(token))
      ensures bootstrap == if writable && removable then None else old(bootstrap)
      ensures PointsWf(points, token) && seen == old(seen) + States(old(Now()), token, points)
      ensures forall i | 0 <= i < |points| && points[i].Removed? ::
        i == |points| - 1 && points[..i] == [Emptied, Written]
      ensures forall i | 0 <= i < |points| :: Safe(old(Now()), token, points[i]) <==> SafeWhen(old(Now()), token, points[i])
    {
      ok, points := WriteSession(token, writable);
      forall p: Point | p.Torn? ==> p.n <= |token|
        ensures Safe(old(Now()), token, p) <==> SafeWhen(old(Now()), token, p)
      {
        RotationSafe(old(Now()), token, p);
      }
      if !ok { return; }
      // the error of os.Remove is ignored
      if removable {
        bootstrap := None;
        seen := seen + [Now()];
        StatesSnoc(old(Now()), token, points, Removed);
        points := points + [Removed];
      }
    }
  }

  predicate PointsWf(points: seq<Point>, token: string) {
    forall i | 0 <= i < |points| :: points[i].Torn? ==> points[i].n <= |token|
  }

  function States(f: Files, token: string, points: seq<Point>): seq<Files>
    requires PointsWf(points, token)
  {
    if points == [] then [] else
    States(f, token, points[..|points| - 1]) + [At(f, token, points[|points| - 1])]
  }

  lemma TwoStates(f: Files, token: string, p: Point)
    requires p.Torn? ==> p.n <= |token|
    ensures States(f, token, [Emptied, p]) == [At(f, token, Emptied), At(f, token, p)]
  {
    StatesSnoc(f, token, [], Emptied);
    StatesSnoc(f, token, [Emptied], p);
    assert [] + [Emptied] == [Emptied] && [Emptied] + [p] == [Emptied, p];
  }

  lemma {:induction false} StatesSnoc(f: Files, token: string, points: seq<Point>, p: Point)
    requires PointsWf(points, token) && (p.Torn? ==> p.n <= |token|)
    ensures PointsWf(points + [p], token)
    ensures States(f, token, points + [p]) == States(f, token, points) + [At(f, token, p)]
  {
    assert (points + [p])[..|points|] == points;
  }
}
