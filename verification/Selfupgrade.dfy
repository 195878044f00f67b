/** internal/selfupgrade/selfupgrade.go: the running binary is replaced by a downloaded one.
    The process may be killed between any two states of the trace. */
module Selfupgrade {
  import opened Text

  /** What the server sends: the body as far as it came, and whether it came to its end. */
  datatype Response = Unreachable | Answer(status: int, body: string, complete: bool)

  /** What fails on the host, if anything: finding the running binary, writing its temporary
      neighbour, making that executable, or swapping the two. */
  datatype Failure = NoFailure | Executable | WriteTemp | Chmod | Rename

  /** The binary that starts next, its temporary neighbour, and the restarts asked for. */
  datatype Host = Host(binary: string, temp: Option<string>, restarts: seq<string>)

  function LowerChar(c: char): char {
    if 'A' <= c <= 'Z' then c - 'A' + 'a' else c
  }

  /** strings.EqualFold, for hexadecimal digits. */
  predicate EqualFold(a: string, b: string) {
    |a| == |b| && forall i | 0 <= i < |a| :: LowerChar(a[i]) == LowerChar(b[i])
  }

  /** The body is what the caller asked for: complete, not empty, and of the given digest
      where one is given. */
  predicate Verified(r: Response, digest: string -> string, want: string) {
    r.Answer? && r.status == 200 && r.complete && r.body != "" && (want != "" ==> EqualFold(digest(r.body), want))
  }

  /** Two digests agree if and only if they have the same length and no two characters at one
      place differ in anything but the case of a letter. */
  lemma FoldMeaning(a: string, b: string)
    ensures EqualFold(a, b) <==> |a| == |b| && forall i | 0 <= i < |a| :: SameLetter(a[i], b[i])
  {
    if EqualFold(a, b) {
      forall i | 0 <= i < |a| ensures SameLetter(a[i], b[i]) { LetterMeaning(a[i], b[i]); }
    }
    if |a| == |b| && forall i | 0 <= i < |a| :: SameLetter(a[i], b[i]) {
      forall i | 0 <= i < |a| ensures LowerChar(a[i]) == LowerChar(b[i]) { LetterMeaning(a[i], b[i]); }
    }
  }

  predicate SameLetter(a: char, b: char) {
    a == b || ('A' <= a <= 'Z' && b as int == a as int + 32) || ('A' <= b <= 'Z' && a as int == b as int + 32)
  }

  lemma LetterMeaning(a: char, b: char)
    ensures LowerChar(a) == LowerChar(b) <==> SameLetter(a, b)
  {}

  /** At no time is the binary anything but the one there was or a verified new one, and no
      restart is asked for before the new one is in place. */
  predicate Sound(h: Host, start: Host, r: Response, digest: string -> string, want: string) {
    || (h.binary == start.binary && h.restarts == start.restarts)
    || (Verified(r, digest, want) && h.binary == r.body && start.restarts <= h.restarts)
  }

  class Machine {
    var host: Host
    /** Every state the host has been in, oldest first. */
    ghost var trace: seq<Host>

    constructor (host: Host)
      ensures this.host == host && trace == [host]
    {
      this.host, trace := host, [host];
    }

    method Become(h: Host)
      modifies this
      ensures host == h && trace == old(trace) + [h]
    {
      host, trace := h, trace + [h];
    }

    /** os.Remove of the temporary file, its error ignored. */
    method RemoveTemp()
      modifies this
      ensures host.binary == old(host).binary && host.restarts == old(host).restarts
      ensures trace == old(trace) + [host]
    {
      var removed: bool := *;
      Become(host.(temp := if removed then None else host.temp));
    }

    /** download: the temporary file is filled while the body arrives, and checked only
        when all of it is there. */
    method Download(r: Response, digest: string -> string, want: string, works: bool) returns (ok: bool)
      modifies this
      ensures host.binary == old(host).binary && host.restarts == old(host).restarts
      ensures old(trace) <= trace
      ensures forall i | |old(trace)| <= i < |trace| ::
        trace[i].binary == host.binary && trace[i].restarts == host.restarts
      ensures ok <==> works && Verified(r, digest, want)
      ensures ok ==> host.temp == Some(r.body)
    {
      if r.Unreachable? || r.status != 200 { return false; }
      // os.OpenFile truncates
      var begun: bool := *;
      if !works && !begun { return false; }
      Become(host.(temp := Some("")));
      var written :| 0 <= written <= |r.body|;
      Become(host.(temp := Some(r.body[..written])));
      // io.Copy and Close
      if !works || !r.complete { return false; }
      Become(host.(temp := Some(r.body)));
      if r.body == "" { return false; }
      ok := want == "" || EqualFold(digest(r.body), want);
    }

    /** Run. The arch token of the URL has been replaced already; `failing` is what
        fails on the host. Success is reported exactly when the binary was
        swapped, and the service is then restarted once. */
    method Run(url: string, r: Response, digest: string -> string, want: string, service: string,
               failing: Failure)
      returns (ok: bool)
      requires trace == [host]
      modifies this
      ensures forall i | 0 <= i < |trace| :: Sound(trace[i], old(host), r, digest, want)
      ensures trace != [] && trace[|trace| - 1] == host
      ensures ok ==> Verified(r, digest, want) && host.binary == r.body && host.temp == None
      ensures ok ==> host.restarts == old(host).restarts + [if service == "" then "vmkit-agent" else service]
      ensures !ok ==> host.binary == old(host).binary && host.restarts == old(host).restarts
      ensures ok <==>
        && failing.NoFailure? && (HasPrefix(url, "http://") || HasPrefix(url, "https://"))
        && r.Answer? && r.status == 200 && r.complete && r.body != ""
        && (want == "" ||
            (|digest(r.body)| == |want| && forall i | 0 <= i < |want| :: SameLetter(digest(r.body)[i], want[i])))
    {
      if r.Answer? { FoldMeaning(digest(r.body), want); }
      if !HasPrefix(url, "http://") && !HasPrefix(url, "https://") { return false; }
      if failing.Executable? { return false; }
      ok := Download(r, digest, want, !failing.WriteTemp?);
      if !ok {
        RemoveTemp();
        return;
      }
      if failing.Chmod? {
        RemoveTemp();
        return false;
      }
      // atomic
      if failing.Rename? {
        RemoveTemp();
        return false;
      }
      Become(host.(binary := r.body, temp := None));
      Become(host.(restarts := host.restarts + [if service == "" then "vmkit-agent" else service]));
    }
  }
}
