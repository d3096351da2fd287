/**
 The durable nonce store behind service authentication
 (kamrui-media-edge/camera-api/recording-safety.js): one file per nonce, holding its
 expiry, created exclusively.
 */
module NonceStore {
  import opened Text
  import opened Wrappers

  const MAX_PRUNED := 1024

  type Files = map<string, int>

  datatype NonceError = InvalidNonce | WriteFailed

  predicate IsNonce(s: string) {
    |s| == 36 && forall c :: c in s ==> '0' <= c <= '9' || 'a' <= Lower(c) <= 'f' || c == '-'
  }

  function FirstListed(listing: seq<string>): seq<string> {
    if |listing| <= MAX_PRUNED then listing else listing[..MAX_PRUNED]
  }

  /** Expired files among those listed first are removed. */
  function Pruned(files: Files, listing: seq<string>, now: int): Files {
    map n | n in files && !(n in FirstListed(listing) && files[n] <= now) :: files[n]
  }

  /** A file goes exactly when it has expired and is among the first 1024 listed. */
  lemma PrunedIff(files: Files, listing: seq<string>, now: int, n: string)
    requires n in files
    ensures n !in Pruned(files, listing, now) <==>
      files[n] <= now && exists i :: 0 <= i < |listing| && i < 1024 && listing[i] == n
  {
    var first := FirstListed(listing);
    assert forall i :: 0 <= i < |first| ==> first[i] == listing[i];
    assert n in first <==> exists i :: 0 <= i < |first| && first[i] == n;
  }

  class Store {
    var files: Files

    constructor (files: Files)
      ensures this.files == files
    {
      this.files := files;
    }

    /** acceptFilesystemNonce; `listing` is the directory as read. */
    method Accept(nonce: string, ttl: int, now: int, listing: seq<string>, writeOk: bool) returns (r: Result<bool, NonceError>)
      modifies this
      ensures !IsNonce(nonce) ==> r == Err(InvalidNonce) && files == old(files)
      ensures IsNonce(nonce) ==>
        var kept := Pruned(old(files), listing, now);
        && (r == Ok(false) <==> nonce in kept)
        && (r == Ok(true) <==> nonce !in kept && writeOk)
        && files == if r == Ok(true) then kept[nonce := now + ttl] else kept
    {
      if !IsNonce(nonce) {
        return Err(InvalidNonce);
      }
      var entries := FirstListed(listing);
      var i := 0;
      while i < |entries|
        invariant 0 <= i <= |entries|
        invariant files == map n | n in old(files) && !(n in entries[..i] && old(files)[n] <= now) :: old(files)[n]
      {
        if entries[i] in files && files[entries[i]] <= now {
          files := files - {entries[i]};
        }
        assert entries[..i + 1] == entries[..i] + [entries[i]];
        i := i + 1;
      }
      assert entries[..i] == entries;
      if nonce in files {
        return Ok(false);
      }
      files := files[nonce := now + ttl];
      if !writeOk {
        files := files - {nonce};
        return Err(WriteFailed);
      }
      return Ok(true);
    }
  }

  // --- Every run of presentations, restarts included ---

  /** How one presentation ends; a crash can leave an empty file, which counts as 0. */
  datatype Ending = Returns | WriteFails | CrashesEmpty | CrashesWritten

  datatype Presentation = Presentation(nonce: string, ttl: int, now: int, listing: seq<string>, ending: Ending)

  predicate Accepts(files: Files, p: Presentation) {
    p.nonce !in Pruned(files, p.listing, p.now) && p.ending.Returns?
  }

  function After(files: Files, p: Presentation): Files {
    var kept := Pruned(files, p.listing, p.now);
    if p.nonce in kept || p.ending.WriteFails? then kept
    else kept[p.nonce := if p.ending.CrashesEmpty? then 0 else p.now + p.ttl]
  }

  function AfterAll(files: Files, ps: seq<Presentation>): Files {
    if ps == [] then files else After(AfterAll(files, ps[..|ps| - 1]), ps[|ps| - 1])
  }

  predicate AcceptedAt(files: Files, ps: seq<Presentation>, i: nat)
    requires i < |ps|
  {
    Accepts(AfterAll(files, ps[..i]), ps[i])
  }

  ghost predicate ClockRuns(ps: seq<Presentation>) {
    forall i, j :: 0 <= i < j < |ps| ==> ps[i].now <= ps[j].now
  }

  /** A presentation leaves every file that has not expired. */
  lemma UnexpiredStays(files: Files, p: Presentation, nonce: string)
    requires nonce in files && p.now < files[nonce]
    ensures nonce in After(files, p) && After(files, p)[nonce] == files[nonce]
  {
  }

  lemma AcceptedHasFile(files: Files, p: Presentation)
    requires Accepts(files, p)
    ensures p.nonce in After(files, p) && After(files, p)[p.nonce] == p.now + p.ttl
  {
  }

  /** An accepted nonce is accepted again when it expires, if its file is among those listed first. */
  lemma ForgottenAtExpiry(files: Files, p: Presentation, q: Presentation)
    requires Accepts(files, p) && q.nonce == p.nonce && q.now >= p.now + p.ttl
    requires q.nonce in FirstListed(q.listing) && q.ending.Returns?
    ensures Accepts(After(files, p), q)
  {
  }

  /** Until it expires, an accepted nonce keeps its file. */
  lemma {:induction false} AcceptedIsKept(files: Files, ps: seq<Presentation>, i: nat, now: int)
    requires ClockRuns(ps) && i < |ps| && AcceptedAt(files, ps, i)
    requires ps[|ps| - 1].now <= now < ps[i].now + ps[i].ttl
    ensures var store := AfterAll(files, ps);
      ps[i].nonce in store && store[ps[i].nonce] == ps[i].now + ps[i].ttl
  {
    hide Accepts, After;
    var n := |ps| - 1;
    if i < n {
      assert ps[..n][..i] == ps[..i];
      AcceptedIsKept(files, ps[..n], i, now);
      UnexpiredStays(AfterAll(files, ps[..n]), ps[n], ps[i].nonce);
    } else {
      AcceptedHasFile(AfterAll(files, ps[..n]), ps[n]);
    }
  }

  /** No nonce is accepted twice within its time to live, crashes and other nonces
      notwithstanding; files that were not listed only make the refusal last longer. */
  lemma AcceptedOnce(files: Files, ps: seq<Presentation>, i: nat, j: nat)
    requires ClockRuns(ps) && i < j < |ps| && ps[i].nonce == ps[j].nonce
    requires AcceptedAt(files, ps, i) && AcceptedAt(files, ps, j)
    ensures ps[j].now >= ps[i].now + ps[i].ttl
  {
    if ps[j].now < ps[i].now + ps[i].ttl {
      assert ps[..j][..i] == ps[..i];
      AcceptedIsKept(files, ps[..j], i, ps[j].now);
    }
  }
}
