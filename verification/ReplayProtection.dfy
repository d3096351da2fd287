/**
 Signed requests and the nonce store together (requireServiceAuth in
 kamrui-media-edge/camera-api/server.js): how often one signed request is accepted when
 it arrives again and again. The store remembers a nonce for `maxSkewMs` from the moment
 of acceptance; the timestamp is good for `maxSkewMs` on either side of its own time.
 */
module ReplayProtection {
  import opened Wrappers
  import opened ServiceSignature
  import NonceStore

  /** One request at the door: what the directory listing shows and how the store's work ends. */
  datatype Visit = Visit(request: Received, listing: seq<string>, ending: NonceStore.Ending)

  /** The store is asked once everything else about the request has been accepted. */
  predicate AsksStore(x: Crypto, keys: seq<Key>, v: Visit) {
    Verify(x, v.request, keys, Fresh).Accepted?
  }

  function Presented(x: Crypto, keys: seq<Key>, v: Visit): NonceStore.Presentation
    requires AsksStore(x, keys, v)
  {
    AcceptedIsVerified(x, v.request, keys, Fresh);
    NonceStore.Presentation(Verified(x, v.request).value.nonce, v.request.maxSkewMs, v.request.nowMs, v.listing, v.ending)
  }

  function Answer(x: Crypto, keys: seq<Key>, files: NonceStore.Files, v: Visit): NonceAnswer
    requires AsksStore(x, keys, v)
  {
    var p := Presented(x, keys, v);
    if p.nonce in NonceStore.Pruned(files, p.listing, p.now) then Seen
    else if p.ending.Returns? then Fresh
    else StoreFails
  }

  /** The request is let through. */
  predicate LetThrough(x: Crypto, keys: seq<Key>, files: NonceStore.Files, v: Visit) {
    AsksStore(x, keys, v) && Verify(x, v.request, keys, Answer(x, keys, files, v)).Accepted?
  }

  function FilesAfter(x: Crypto, keys: seq<Key>, files: NonceStore.Files, v: Visit): NonceStore.Files {
    if AsksStore(x, keys, v) then NonceStore.After(files, Presented(x, keys, v)) else files
  }

  function FilesAfterAll(x: Crypto, keys: seq<Key>, files: NonceStore.Files, visits: seq<Visit>): NonceStore.Files {
    if visits == [] then files
    else FilesAfter(x, keys, FilesAfterAll(x, keys, files, visits[..|visits| - 1]), visits[|visits| - 1])
  }

  predicate LetThroughAt(x: Crypto, keys: seq<Key>, files: NonceStore.Files, visits: seq<Visit>, i: nat)
    requires i < |visits|
  {
    LetThrough(x, keys, FilesAfterAll(x, keys, files, visits[..i]), visits[i])
  }

  /** The clock does not go back, and every visit has the same skew. */
  ghost predicate Orderly(visits: seq<Visit>, skew: int) {
    && (forall v :: v in visits ==> v.request.maxSkewMs == skew)
    && (forall i, j :: 0 <= i < j < |visits| ==> visits[i].request.nowMs <= visits[j].request.nowMs)
  }

  // --- One signed request ---

  /** A request signed with a key, and a receiver that lists the key under no other secret. */
  datatype SignedOne = SignedOne(x: Crypto, request: Request, key: Key, keys: seq<Key>)

  ghost predicate Good(s: SignedOne) {
    && ValidCrypto(s.x) && Sign(s.x, s.request, s.key).Some?
    && forall k :: k in s.keys && k.id == Text.Trim(s.key.id) && k.version == Text.Trim(s.key.version) ==> k.secret == s.key.secret
  }

  function FieldsOf(s: SignedOne): Fields
    requires Sign(s.x, s.request, s.key).Some?
  {
    Normalize(s.x, s.request, s.key.id, s.key.version).value
  }

  function TimeOf(s: SignedOne): (t: nat)
    requires Sign(s.x, s.request, s.key).Some?
  {
    NumberOf(FieldsOf(s).timestamp)
  }

  ghost predicate Copy(s: SignedOne, v: Visit)
    requires Sign(s.x, s.request, s.key).Some?
  {
    Arrives(s.request, Sign(s.x, s.request, s.key).value.headers, v.request)
  }

  /** The receiver lists the key, and first, under its normalized id and version. */
  predicate Listed(s: SignedOne)
    requires Sign(s.x, s.request, s.key).Some?
  {
    var f := FieldsOf(s);
    FindKey(s.keys, f.keyId, f.keyVersion) == Some(Key(f.keyId, f.keyVersion, s.key.secret))
  }

  /** A copy reaches the store exactly when it is in time and the key is listed. */
  lemma CopyAsksIff(s: SignedOne, v: Visit)
    requires Good(s) && Copy(s, v)
    ensures AsksStore(s.x, s.keys, v) <==> Listed(s) && WithinSkew(v.request, FieldsOf(s).timestamp)
  {
    hide Verify, Normalize, Sign, Arrives, WithinSkew, FindKey, IsTimestamp;
    SignedRequestVerifiesIff(s.x, s.request, s.key, v.request, s.keys, Fresh);
  }

  lemma CopyIsVerified(s: SignedOne, v: Visit)
    requires Good(s) && Copy(s, v)
    ensures Verified(s.x, v.request) == Some(FieldsOf(s))
  {
    hide Normalize, SignedHeaders, HeaderValue, NormalizeNonce, NormalizeIdentifier, CanonicalText, IsTimestamp, Described;
    var f := FieldsOf(s);
    NormalizeIsFixed(s.x, s.request, s.key.id, s.key.version);
    DescribedIsSigned(s.request, f, s.x.hmac(s.key.secret, CanonicalText(f)), v.request);
    var d := WithNormalHeaders(s.request, f);
    assert d.(nonce := f.nonce, operatorId := f.operatorId) == d;
  }

  /** What a copy shows the store. */
  lemma CopyPresents(s: SignedOne, v: Visit)
    requires Good(s) && Copy(s, v) && AsksStore(s.x, s.keys, v)
    ensures Presented(s.x, s.keys, v) ==
      NonceStore.Presentation(FieldsOf(s).nonce, v.request.maxSkewMs, v.request.nowMs, v.listing, v.ending)
  {
    hide AsksStore, Copy, ValidCrypto, Sign, Normalize, FieldsOf, Verified;
    CopyIsVerified(s, v);
  }

  /** What is let through is what the store accepts. */
  lemma LetThroughIff(x: Crypto, keys: seq<Key>, files: NonceStore.Files, v: Visit)
    ensures LetThrough(x, keys, files, v) <==> AsksStore(x, keys, v) && NonceStore.Accepts(files, Presented(x, keys, v))
  {
    hide Described, NormalizeNonce, NormalizeIdentifier, HeaderValue, WithinSkew, FindKey, Normalize, SignaturesMatch, CanonicalText, Presented;
  }

  /** Until it expires, the nonce of a request let through keeps its file. */
  lemma {:induction false} NonceIsKept(x: Crypto, keys: seq<Key>, files: NonceStore.Files, visits: seq<Visit>, i: nat, skew: int, now: int)
    requires Orderly(visits, skew) && i < |visits| && LetThroughAt(x, keys, files, visits, i)
    requires visits[|visits| - 1].request.nowMs <= now < visits[i].request.nowMs + skew
    ensures AsksStore(x, keys, visits[i])
    ensures var nonce, store := Presented(x, keys, visits[i]).nonce, FilesAfterAll(x, keys, files, visits);
      nonce in store && store[nonce] == visits[i].request.nowMs + skew
  {
    hide AsksStore, Presented, LetThrough, NonceStore.Accepts, NonceStore.After;
    var n := |visits| - 1;
    var before := FilesAfterAll(x, keys, files, visits[..n]);
    LetThroughIff(x, keys, FilesAfterAll(x, keys, files, visits[..i]), visits[i]);
    PresentedAtVisit(x, keys, visits[i]);
    assert visits[i] in visits && visits[n] in visits;
    if i < n {
      assert visits[..n][..i] == visits[..i];
      NonceIsKept(x, keys, files, visits[..n], i, skew, now);
      if AsksStore(x, keys, visits[n]) {
        PresentedAtVisit(x, keys, visits[n]);
        NonceStore.UnexpiredStays(before, Presented(x, keys, visits[n]), Presented(x, keys, visits[i]).nonce);
      }
    } else {
      NonceStore.AcceptedHasFile(before, Presented(x, keys, visits[n]));
    }
  }

  lemma PresentedAtVisit(x: Crypto, keys: seq<Key>, v: Visit)
    requires AsksStore(x, keys, v)
    ensures var p := Presented(x, keys, v); p.now == v.request.nowMs && p.ttl == v.request.maxSkewMs && p.ending == v.ending
  {
    hide Verify, Verified;
  }

  /** A copy is let through within the skew, and only while its nonce has no file left. */
  lemma CopyLetThrough(s: SignedOne, files: NonceStore.Files, v: Visit)
    requires Good(s) && Copy(s, v) && LetThrough(s.x, s.keys, files, v)
    ensures AsksStore(s.x, s.keys, v) && Presented(s.x, s.keys, v).nonce == FieldsOf(s).nonce
    ensures FieldsOf(s).nonce !in NonceStore.Pruned(files, v.listing, v.request.nowMs)
    ensures TimeOf(s) - v.request.maxSkewMs <= v.request.nowMs <= TimeOf(s) + v.request.maxSkewMs
  {
    LetThroughIff(s.x, s.keys, files, v);
    hide LetThrough, AsksStore, Copy, ValidCrypto, Sign, Normalize, FieldsOf, Presented, NonceStore.Pruned;
    CopyAsksIff(s, v);
    CopyPresents(s, v);
  }

  lemma OrderlyPrefix(visits: seq<Visit>, skew: int, k: nat)
    requires Orderly(visits, skew) && k <= |visits|
    ensures Orderly(visits[..k], skew)
  {
  }

  /** Of two copies let through, the first came no later than the request's own time, and the
      second no sooner than a skew after the first. */
  lemma CopiesKeepApart(s: SignedOne, files: NonceStore.Files, visits: seq<Visit>, skew: int, i: nat, j: nat)
    requires Good(s) && Orderly(visits, skew) && i < j < |visits| && Copy(s, visits[i]) && Copy(s, visits[j])
    requires LetThroughAt(s.x, s.keys, files, visits, i) && LetThroughAt(s.x, s.keys, files, visits, j)
    ensures visits[i].request.nowMs + skew <= visits[j].request.nowMs
    ensures TimeOf(s) - skew <= visits[i].request.nowMs <= TimeOf(s) <= visits[j].request.nowMs <= TimeOf(s) + skew
  {
    hide LetThrough, AsksStore, Copy, ValidCrypto, Sign, Normalize, FieldsOf, TimeOf, Presented, FilesAfterAll;
    CopyLetThrough(s, FilesAfterAll(s.x, s.keys, files, visits[..i]), visits[i]);
    CopyLetThrough(s, FilesAfterAll(s.x, s.keys, files, visits[..j]), visits[j]);
    assert visits[i] in visits && visits[j] in visits;
    if visits[j].request.nowMs < visits[i].request.nowMs + skew {
      assert visits[..j][..i] == visits[..i];
      OrderlyPrefix(visits, skew, j);
      NonceIsKept(s.x, s.keys, files, visits[..j], i, skew, visits[j].request.nowMs);
    }
  }

  /** Whatever else comes to the door and whenever the receiver crashes, a signed request is
      never let through more than three times, and three times only at exactly a skew before
      its own time, at its own time and a skew after. */
  lemma AtMostThreeTimes(s: SignedOne, files: NonceStore.Files, visits: seq<Visit>, skew: int, i: nat, j: nat, k: nat)
    requires Good(s) && Orderly(visits, skew) && i < j < k < |visits|
    requires Copy(s, visits[i]) && Copy(s, visits[j]) && Copy(s, visits[k])
    requires LetThroughAt(s.x, s.keys, files, visits, i) && LetThroughAt(s.x, s.keys, files, visits, j)
    requires LetThroughAt(s.x, s.keys, files, visits, k)
    ensures visits[i].request.nowMs == TimeOf(s) - skew
    ensures visits[j].request.nowMs == TimeOf(s)
    ensures visits[k].request.nowMs == TimeOf(s) + skew
  {
    hide *;
    CopiesKeepApart(s, files, visits, skew, i, j);
    CopiesKeepApart(s, files, visits, skew, j, k);
  }

  /** Some later visit lets the same request through once more. */
  ghost predicate CanReturn(s: SignedOne, files: NonceStore.Files, visits: seq<Visit>, skew: int)
    requires Sign(s.x, s.request, s.key).Some?
  {
    exists more: seq<Visit>, again: Visit ::
      && Copy(s, again) && Orderly(visits + more + [again], skew)
      && LetThroughAt(s.x, s.keys, files, visits + more + [again], |visits + more|)
  }

  /** The same request a skew later, when the nonce is due to be pruned. */
  function Returning(s: SignedOne, v: Visit): Visit
    requires Sign(s.x, s.request, s.key).Some?
  {
    Visit(v.request.(nowMs := v.request.nowMs + v.request.maxSkewMs), [FieldsOf(s).nonce], NonceStore.Returns)
  }

  lemma ReturnsInTime(s: SignedOne, files: NonceStore.Files, visits: seq<Visit>, skew: int)
    requires Good(s) && visits != [] && Orderly(visits, skew) && Copy(s, visits[|visits| - 1])
    requires LetThroughAt(s.x, s.keys, files, visits, |visits| - 1)
    requires visits[|visits| - 1].request.nowMs <= TimeOf(s)
    ensures CanReturn(s, files, visits, skew)
  {
    hide LetThrough, AsksStore, Copy, ValidCrypto, Sign, Normalize, FieldsOf, TimeOf, Presented, FilesAfter;
    var n := |visits| - 1;
    var before := FilesAfterAll(s.x, s.keys, files, visits[..n]);
    assert visits[n] in visits;
    CopyLetThrough(s, before, visits[n]);
    ReturningAsks(s, visits[n]);
    ReturningIsLetThrough(s, before, visits[n]);
    var again := Returning(s, visits[n]);
    var all := visits + [] + [again];
    assert all[..|visits|] == visits && all[|visits|] == again && visits + [] == visits;
    assert Orderly(all, skew);
  }

  /** The same request a skew after it was let through meets a store that forgets it. */
  lemma ReturningIsLetThrough(s: SignedOne, files: NonceStore.Files, v: Visit)
    requires Good(s) && Copy(s, v) && LetThrough(s.x, s.keys, files, v) && v.request.nowMs <= TimeOf(s)
    ensures LetThrough(s.x, s.keys, FilesAfter(s.x, s.keys, files, v), Returning(s, v))
  {
    hide LetThrough, AsksStore, Copy, ValidCrypto, Sign, Normalize, FieldsOf, TimeOf, Presented, NonceStore.Accepts, NonceStore.After;
    var again := Returning(s, v);
    LetThroughIff(s.x, s.keys, files, v);
    LetThroughIff(s.x, s.keys, FilesAfter(s.x, s.keys, files, v), again);
    ReturningAsks(s, v);
    CopyPresents(s, v);
    CopyPresents(s, again);
    NonceStore.ForgottenAtExpiry(files, Presented(s.x, s.keys, v), Presented(s.x, s.keys, again));
  }

  lemma ReturningAsks(s: SignedOne, v: Visit)
    requires Good(s) && Copy(s, v) && AsksStore(s.x, s.keys, v) && v.request.nowMs <= TimeOf(s)
    ensures Copy(s, Returning(s, v)) && AsksStore(s.x, s.keys, Returning(s, v))
  {
    hide AsksStore, ValidCrypto, Sign, Normalize, FieldsOf, HeadersArrive;
    assert Copy(s, Returning(s, v));
    hide Copy;
    CopyAsksIff(s, v);
    CopyAsksIff(s, Returning(s, v));
  }

  /** Once let through, a signed request can be let through again exactly when it came no
      later than its own time: only a copy that is late already outlives its timestamp
      within the nonce's time. */
  lemma CanReturnIff(s: SignedOne, files: NonceStore.Files, visits: seq<Visit>, skew: int)
    requires Good(s) && visits != [] && Orderly(visits, skew) && Copy(s, visits[|visits| - 1])
    requires LetThroughAt(s.x, s.keys, files, visits, |visits| - 1)
    ensures CanReturn(s, files, visits, skew) <==> visits[|visits| - 1].request.nowMs <= TimeOf(s)
  {
    hide LetThrough, FilesAfterAll, Copy, ValidCrypto, Sign, Normalize, FieldsOf, TimeOf;
    var n := |visits| - 1;
    if visits[n].request.nowMs <= TimeOf(s) {
      ReturnsInTime(s, files, visits, skew);
    }
    if CanReturn(s, files, visits, skew) {
      var more: seq<Visit>, again: Visit :| Copy(s, again) && Orderly(visits + more + [again], skew)
        && LetThroughAt(s.x, s.keys, files, visits + more + [again], |visits + more|);
      var all := visits + more + [again];
      assert all[..n] == visits[..n] && all[n] == visits[n];
      CopiesKeepApart(s, files, all, skew, n, |visits + more|);
    }
  }

  /** Such a request exists: let through on time and, a skew later, let through again. */
  lemma SampleIsLetThroughTwice() returns (s: SignedOne, visits: seq<Visit>)
    ensures Good(s) && |visits| == 2 && Orderly(visits, visits[0].request.maxSkewMs)
    ensures Copy(s, visits[0]) && LetThroughAt(s.x, s.keys, map[], visits, 0)
    ensures Copy(s, visits[1]) && LetThroughAt(s.x, s.keys, map[], visits, 1)
  {
    var x, r, key, v := SampleIsAccepted();
    hide Verify, Normalize, Sign, Arrives, NumberOf, ValidCrypto, LetThrough;
    s := SignedOne(x, r, key, [key]);
    var first := Visit(v, [], NonceStore.Returns);
    FirstIsLetThrough(x, [key], first);
    ReturningAsks(s, first);
    ReturningIsLetThrough(s, map[], first);
    CopyAsksIff(s, first);
    visits := [first, Returning(s, first)];
    assert visits[..0] == [] && visits[..1] == [first] && [first][..0] == [];
  }

  lemma FirstIsLetThrough(x: Crypto, keys: seq<Key>, v: Visit)
    requires AsksStore(x, keys, v) && v.ending.Returns?
    ensures LetThrough(x, keys, map[], v)
  {
    hide Presented, AsksStore;
    PresentedAtVisit(x, keys, v);
    LetThroughIff(x, keys, map[], v);
  }
}
