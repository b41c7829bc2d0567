/**
 * The saved webhook list as a value: the append done by
 * `validateAndSaveWebhook` and the `remove(atOffsets:)` done by
 * `removeWebhook`, with the invariants both keep. The views in settings_view.dfy
 * and content_view.dfy apply these to their `savedWebhooks` field.
 */
module WebhookList {
  import WebhookPattern

  predicate NoDuplicates(list: seq<string>)
  {
    forall i, j :: 0 <= i < j < |list| ==> list[i] != list[j]
  }

  predicate AllValid(list: seq<string>)
  {
    forall i :: 0 <= i < |list| ==> WebhookPattern.IsValidWebhookURL(list[i])
  }

  /** What the add path keeps true of the list: no entry twice, every entry passes the check. */
  predicate WellFormed(list: seq<string>)
  {
    NoDuplicates(list) && AllValid(list)
  }

  /**
   * The list after an add attempt: `url` is appended when it passes the check
   * and is not yet present; otherwise the list is unchanged.
   */
  function Added(list: seq<string>, url: string): (r: seq<string>)
    ensures |list| <= |r| <= |list| + 1 && r[..|list|] == list
    ensures |r| == |list| + 1 <==> WebhookPattern.IsValidWebhookURL(url) && url !in list
    ensures url in r <==> url in list || WebhookPattern.IsValidWebhookURL(url)
    ensures forall x :: x != url ==> (x in r <==> x in list)
  {
    if WebhookPattern.IsValidWebhookURL(url) && url !in list then list + [url] else list
  }

  /** Adding keeps the list free of duplicates and of entries that fail the check. */
  lemma AddedKeepsWellFormed(list: seq<string>, url: string)
    requires WellFormed(list)
    ensures WellFormed(Added(list, url))
  {
  }

  /** Adding the same URL twice gives the same list as adding it once. */
  lemma AddedIdempotent(list: seq<string>, url: string)
    ensures Added(Added(list, url), url) == Added(list, url)
  {
  }

  /**
   * The indices below `n` that are not among `offsets`, in increasing order:
   * the positions `remove(atOffsets:)` keeps.
   */
  function KeptIndices(n: nat, offsets: set<int>): (kept: seq<nat>)
    ensures forall k :: 0 <= k < |kept| ==> kept[k] < n
    ensures forall a, b :: 0 <= a < b < |kept| ==> kept[a] < kept[b]
    ensures forall j :: j in kept <==> 0 <= j < n && j !in offsets
  {
    if n == 0 then []
    else KeptIndices(n - 1, offsets) + (if n - 1 in offsets then [] else [n - 1])
  }

  /** `remove(atOffsets:)`: drop the entries at the given offsets. */
  function RemovedAt(list: seq<string>, offsets: set<int>): (r: seq<string>)
    ensures |r| <= |list|
    ensures forall i :: 0 <= i < |r| ==> r[i] in list
  {
    if list == [] then []
    else RemovedAt(list[..|list| - 1], offsets) + (if |list| - 1 in offsets then [] else [list[|list| - 1]])
  }

  /** The offsets among `offsets` that index into a list of length `n`. */
  ghost function Below(offsets: set<int>, n: nat): set<int>
  {
    set o | o in offsets && 0 <= o < n
  }

  /** Removal keeps exactly the entries at the kept indices, in their original order. */
  lemma {:induction false} RemovedAtKeepsOrder(list: seq<string>, offsets: set<int>)
    ensures KeepsOrder(list, offsets)
  {
    if list != [] {
      RemovedAtKeepsOrder(list[..|list| - 1], offsets);
      if |list| - 1 in offsets {
        KeepsOrderDropLast(list, offsets);
      } else {
        KeepsOrderKeepLast(list, offsets);
      }
    }
  }

  /** The entries `RemovedAt` keeps are those at `KeptIndices`, in order. */
  ghost predicate KeepsOrder(list: seq<string>, offsets: set<int>)
  {
    var kept := KeptIndices(|list|, offsets);
    |RemovedAt(list, offsets)| == |kept| &&
    forall k :: 0 <= k < |kept| ==> RemovedAt(list, offsets)[k] == list[kept[k]]
  }

  lemma KeepsOrderDropLast(list: seq<string>, offsets: set<int>)
    requires list != [] && |list| - 1 in offsets
    requires KeepsOrder(list[..|list| - 1], offsets)
    ensures KeepsOrder(list, offsets)
  {
    var n := |list| - 1;
    var prefix := list[..n];
    var kept := KeptIndices(n, offsets);
    var rest := RemovedAt(prefix, offsets);
    KeptIndicesStep(n, offsets);
    RemovedAtStep(list, offsets);
    forall k | 0 <= k < |kept|
      ensures rest[k] == list[kept[k]]
    {
      assert rest[k] == prefix[kept[k]];
    }
  }

  lemma KeepsOrderKeepLast(list: seq<string>, offsets: set<int>)
    requires list != [] && |list| - 1 !in offsets
    requires KeepsOrder(list[..|list| - 1], offsets)
    ensures KeepsOrder(list, offsets)
  {
    var n := |list| - 1;
    var prefix := list[..n];
    var kept := KeptIndices(n, offsets);
    var rest := RemovedAt(prefix, offsets);
    KeptIndicesStep(n, offsets);
    RemovedAtStep(list, offsets);
    forall k | 0 <= k < |kept| + 1
      ensures (rest + [list[n]])[k] == list[(kept + [n])[k]]
    {
      if k < |kept| {
        assert rest[k] == prefix[kept[k]];
      }
    }
  }

  lemma KeptIndicesStep(n: nat, offsets: set<int>)
    ensures KeptIndices(n + 1, offsets) == KeptIndices(n, offsets) + (if n in offsets then [] else [n])
  {
  }

  lemma RemovedAtStep(list: seq<string>, offsets: set<int>)
    requires list != []
    ensures RemovedAt(list, offsets)
         == RemovedAt(list[..|list| - 1], offsets) + (if |list| - 1 in offsets then [] else [list[|list| - 1]])
  {
  }

  lemma BelowStep(offsets: set<int>, n: nat)
    requires n > 0
    ensures n - 1 in offsets ==> Below(offsets, n) == Below(offsets, n - 1) + {n - 1}
    ensures n - 1 !in offsets ==> Below(offsets, n) == Below(offsets, n - 1)
  {
  }

  lemma {:induction false} KeptCount(n: nat, offsets: set<int>)
    ensures |KeptIndices(n, offsets)| + |Below(offsets, n)| == n
  {
    if n > 0 {
      KeptCount(n - 1, offsets);
      BelowStep(offsets, n);
      if n - 1 in offsets {
        assert n - 1 !in Below(offsets, n - 1);
      }
    }
  }

  /** With offsets that all index into the list, exactly one entry goes per offset. */
  lemma RemovedAtLength(list: seq<string>, offsets: set<int>)
    requires forall o :: o in offsets ==> 0 <= o < |list|
    ensures |RemovedAt(list, offsets)| == |list| - |offsets|
  {
    RemovedAtKeepsOrder(list, offsets);
    KeptCount(|list|, offsets);
    assert Below(offsets, |list|) == offsets;
  }

  /** Removal keeps the list free of duplicates and of entries that fail the check. */
  lemma RemovedAtKeepsWellFormed(list: seq<string>, offsets: set<int>)
    requires WellFormed(list)
    ensures WellFormed(RemovedAt(list, offsets))
  {
    RemovedAtKeepsOrder(list, offsets);
  }
}
