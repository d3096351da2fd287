/**
 The names of recording segments: `recording_<date>_%03d.mp4`, listed in sorted order
 (kamrui-media-edge/camera-api/server.js).
 */
module SegmentNames {
  import opened Text
  import Sorting

  const SUFFIX := ".mp4"

  predicate IsSegment(name: string) {
    |name| >= 4 && name[|name| - 4..] == SUFFIX
  }

  lemma IsSegmentIff(name: string)
    ensures IsSegment(name) <==> exists stem: string :: name == stem + ".mp4"
  {
    if IsSegment(name) {
      assert name == name[..|name| - 4] + ".mp4";
    }
    if stem: string :| name == stem + ".mp4" {
      assert name[|name| - 4..] == ".mp4";
    }
  }

  /** `readdirSync(dir).filter(endsWith('.mp4')).sort()`, for any order of the listing. */
  function SortedSegments(listing: seq<string>): seq<string> {
    Sorting.Sort(KeepSegments(listing), Leq)
  }

  function KeepSegments(listing: seq<string>): (r: seq<string>)
    ensures multiset(r) <= multiset(listing)
    ensures forall x :: x in r <==> x in listing && IsSegment(x)
  {
    if listing == [] then []
    else
      assert listing == [listing[0]] + listing[1..];
      if IsSegment(listing[0]) then [listing[0]] + KeepSegments(listing[1..]) else KeepSegments(listing[1..])
  }

  /** The names in a set, in sorted order. */
  ghost function InOrder(names: set<string>): (r: seq<string>)
    ensures forall x :: x in r <==> x in names
    ensures multiset(r) == multiset(names)
    ensures Sorting.Sorted(r, Leq)
  {
    var listing := Enumerate(names);
    LeqIsTotalOrder();
    Sorting.SortSorted(listing, Leq);
    Sorting.SameElements(Sorting.Sort(listing, Leq), listing);
    Sorting.Sort(listing, Leq)
  }

  ghost function Enumerate(names: set<string>): (r: seq<string>)
    ensures multiset(r) == multiset(names)
    ensures forall x :: x in r <==> x in names
  {
    if names == {} then []
    else
      var x :| x in names;
      assert multiset(names) == multiset(names - {x}) + multiset{x};
      [x] + Enumerate(names - {x})
  }

  /** The order in which the directory is listed does not matter. */
  lemma ListingOrderIrrelevant(listing: seq<string>, names: set<string>)
    requires multiset(listing) == multiset(names)
    ensures SortedSegments(listing) == InOrder(set n | n in names && IsSegment(n))
  {
    var kept := set n | n in names && IsSegment(n);
    var segments := KeepSegments(listing);
    assert forall x :: x in listing <==> x in multiset(listing);
    assert multiset(segments) == multiset(kept) by {
      forall x ensures multiset(segments)[x] == multiset(kept)[x] {
        assert multiset(segments)[x] <= multiset(listing)[x] <= 1;
        assert x in segments <==> x in multiset(segments);
        assert x in segments <==> x in kept;
      }
    }
    LeqIsTotalOrder();
    Sorting.SortSorted(segments, Leq);
    Sorting.SortedUnique(SortedSegments(listing), InOrder(kept), Leq);
  }

  // --- Zero-padded numbers ---

  /** The `%03d` format. */
  function Padded(n: nat): string {
    if n < 1000 then [Digit(n / 100), Digit(n / 10 % 10), Digit(n % 10)] else Decimal(n)
  }

  function SegmentName(prefix: string, n: nat): string {
    prefix + Padded(n) + SUFFIX
  }

  lemma {:induction false} SamePrefix(prefix: string, a: string, b: string)
    ensures Leq(prefix + a, prefix + b) <==> Leq(a, b)
  {
    if prefix == "" {
      assert prefix + a == a && prefix + b == b;
    } else {
      var x, y := prefix + a, prefix + b;
      assert x[0] == y[0] == prefix[0];
      assert Leq(x, y) <==> Leq(x[1..], y[1..]);
      assert x[1..] == prefix[1..] + a && y[1..] == prefix[1..] + b;
      SamePrefix(prefix[1..], a, b);
    }
  }

  lemma ThreeCharsOrder(a: string, b: string, rest: string)
    requires |a| == |b| == 3
    ensures Leq(a + rest, b + rest) <==> a[0] < b[0] || (a[0] == b[0] && (a[1] < b[1] || (a[1] == b[1] && a[2] <= b[2])))
  {
    var x, y := a + rest, b + rest;
    assert x[1..][1..][1..] == rest && y[1..][1..][1..] == rest;
    LeqTotal(rest, rest);
  }

  lemma DigitsOrder(i: nat, j: nat)
    requires i < 1000 && j < 1000
    ensures i <= j <==>
      (i / 100 < j / 100 || (i / 100 == j / 100 && (i / 10 % 10 < j / 10 % 10 || (i / 10 % 10 == j / 10 % 10 && i % 10 <= j % 10))))
  {
  }

  lemma ThreeDigitsOrder(i: nat, j: nat, rest: string)
    requires i < 1000 && j < 1000
    ensures Leq(Padded(i) + rest, Padded(j) + rest) <==> i <= j
  {
    ThreeCharsOrder(Padded(i), Padded(j), rest);
    DigitsOrder(i, j);
  }

  lemma NamesOrder(prefix: string, i: nat, j: nat)
    requires i < 1000 && j < 1000
    ensures Leq(SegmentName(prefix, i), SegmentName(prefix, j)) <==> i <= j
  {
    assert SegmentName(prefix, i) == prefix + (Padded(i) + SUFFIX);
    assert SegmentName(prefix, j) == prefix + (Padded(j) + SUFFIX);
    SamePrefix(prefix, Padded(i) + SUFFIX, Padded(j) + SUFFIX);
    ThreeDigitsOrder(i, j, SUFFIX);
  }

  /** The names of `n` segments in the order they were recorded. */
  function Recorded(prefix: string, n: nat): (r: seq<string>)
    ensures |r| == n && forall i :: 0 <= i < n ==> r[i] == SegmentName(prefix, i)
  {
    seq(n, i requires 0 <= i < n => SegmentName(prefix, i))
  }

  lemma ThousandthSortsEarly(prefix: string)
    ensures !Leq(SegmentName(prefix, 999), SegmentName(prefix, 1000))
  {
    assert Padded(1000) == "1000" by {
      assert Decimal(1) == "1" && Decimal(10) == "10" && Decimal(100) == "100";
    }
    assert Padded(999) == "999";
    assert SegmentName(prefix, 999) == prefix + "999.mp4" && SegmentName(prefix, 1000) == prefix + "1000.mp4";
    SamePrefix(prefix, "999.mp4", "1000.mp4");
  }

  /** Sorting the names gives the recording order exactly up to a thousand segments. */
  lemma SortedIsRecordedIff(prefix: string, n: nat)
    ensures Sorting.Sort(Recorded(prefix, n), Leq) == Recorded(prefix, n) <==> n <= 1000
  {
    var names := Recorded(prefix, n);
    LeqIsTotalOrder();
    if n <= 1000 {
      forall i, j | 0 <= i < j < n ensures Leq(names[i], names[j]) {
        NamesOrder(prefix, i, j);
      }
      Sorting.SortFixesSorted(names, Leq);
    } else {
      Sorting.SortSorted(names, Leq);
      ThousandthSortsEarly(prefix);
      assert !Leq(names[999], names[1000]);
    }
  }

  lemma SegmentNamesAreSegments(prefix: string, i: nat)
    ensures IsSegment(SegmentName(prefix, i))
  {
    var name := SegmentName(prefix, i);
    assert name[|name| - 4..] == SUFFIX;
  }

  /** Hence the directory of up to a thousand segments lists in recording order. */
  lemma DirectoryInRecordingOrder(prefix: string, n: nat)
    requires n <= 1000
    ensures InOrder(set i | 0 <= i < n :: SegmentName(prefix, i)) == Recorded(prefix, n)
  {
    var recorded := Recorded(prefix, n);
    var names := set i | 0 <= i < n :: SegmentName(prefix, i);
    forall i, j | 0 <= i < j < n ensures recorded[i] != recorded[j] && Leq(recorded[i], recorded[j]) {
      NamesOrder(prefix, i, j);
      NamesOrder(prefix, j, i);
      LeqTotal(recorded[i], recorded[i]);
    }
    DistinctMultiset(recorded, names);
    LeqIsTotalOrder();
    Sorting.SortedUnique(InOrder(names), recorded, Leq);
  }

  lemma {:induction false} DistinctMultiset(s: seq<string>, names: set<string>)
    requires forall i, j :: 0 <= i < j < |s| ==> s[i] != s[j]
    requires forall x :: x in s <==> x in names
    ensures multiset(s) == multiset(names)
  {
    if s == [] {
      assert names == {};
    } else {
      var n := |s| - 1;
      assert s == s[..n] + [s[n]];
      DistinctMultiset(s[..n], names - {s[n]});
      assert multiset(names) == multiset(names - {s[n]}) + multiset{s[n]};
    }
  }
}
