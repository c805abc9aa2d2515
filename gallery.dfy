/**
  The gallery of `loadImages` (frontend/src/App.tsx): the ids asked for,
  the card built for each image, and the newest-first order of the cards.
*/
module Gallery {
  import opened Wrappers
  import opened NumberText
  import opened Gateway
  import opened Acl

  /** What the rating contract returns for one image: `getImageInfo` and `getEncryptedStats`. */
  datatype ImageRecord = ImageRecord(ipfsCid: string, creator: Address, createdAt: nat, sum: Handle, count: Handle)

  /** `GalleryItem`; `createdAt` is kept as the contract's timestamp in seconds (locale formatting is not modelled). */
  datatype GalleryItem = GalleryItem(
    id: string, ipfsCid: string, creator: Address, createdAt: nat, sum: Handle, count: Handle, gatewayUrl: string)

  /** `Array.from({ length: total }, (_, i) => i)`. */
  function ImageIds(total: nat): (ids: seq<nat>)
    ensures |ids| == total && forall i :: 0 <= i < total ==> ids[i] == i
  {
    seq(total, i => i)
  }

  /** Every id below the total is asked for, and no other. */
  lemma ImageIdsExactly(total: nat, id: int)
    ensures id in ImageIds(total) <==> 0 <= id < total
  {
    if 0 <= id < total {
      assert ImageIds(total)[id] == id;
    }
  }

  /**
    `Promise.all(ids.map(fetch))`: every record in the order of `ids`, or None
    as soon as one of the contract calls fails.
  */
  function FetchAll(ids: seq<nat>, fetch: nat -> Option<ImageRecord>): (r: Option<seq<ImageRecord>>)
    ensures r.Some? ==> |r.value| == |ids|
  {
    if ids == [] then Some([])
    else match (fetch(ids[0]), FetchAll(ids[1..], fetch))
      case (Some(r), Some(rest)) => Some([r] + rest)
      case _ => None
  }

  /** Promise.all succeeds exactly when every call does, and then keeps the order of the ids. */
  lemma {:induction false} FetchAllExactly(ids: seq<nat>, fetch: nat -> Option<ImageRecord>)
    ensures FetchAll(ids, fetch).Some? <==> forall i :: 0 <= i < |ids| ==> fetch(ids[i]).Some?
    ensures FetchAll(ids, fetch).Some? ==>
      |FetchAll(ids, fetch).value| == |ids| &&
      forall i :: 0 <= i < |ids| ==> FetchAll(ids, fetch).value[i] == fetch(ids[i]).value
  {
    if ids != [] {
      FetchAllExactly(ids[1..], fetch);
      if FetchAll(ids, fetch).None? && fetch(ids[0]).Some? {
        var i :| 1 <= i < |ids| && fetch(ids[i]).None? by {
          var j :| 0 <= j < |ids[1..]| && fetch(ids[1..][j]).None?;
          assert fetch(ids[j + 1]).None?;
        }
      }
      if FetchAll(ids, fetch).Some? {
        forall i | 1 <= i < |ids| ensures FetchAll(ids, fetch).value[i] == fetch(ids[i]).value {
          assert ids[i] == ids[1..][i - 1];
        }
      }
    }
  }

  /** The card shown for the image with id `id`. */
  function CardFor(id: nat, record: ImageRecord, gateway: string): (card: GalleryItem)
    ensures ParseRadix(card.id, 10) == Some(id)
    ensures card.ipfsCid == record.ipfsCid && card.creator == record.creator && card.createdAt == record.createdAt
    ensures card.sum == record.sum && card.count == record.count
    ensures card.gatewayUrl == gateway + "/" + record.ipfsCid
  {
    ToRadixStringRoundTrip(id, 10);
    GalleryItem(ToRadixString(id, 10), record.ipfsCid, record.creator, record.createdAt,
                record.sum, record.count, BuildGatewayUrl(gateway, record.ipfsCid))
  }

  /** The cards of `records`, where record `i` is the image with id `i`. */
  function Cards(records: seq<ImageRecord>, gateway: string): (cards: seq<GalleryItem>)
    ensures |cards| == |records|
    ensures forall i :: 0 <= i < |records| ==> cards[i] == CardFor(i, records[i], gateway)
  {
    seq(|records|, i requires 0 <= i < |records| => CardFor(i, records[i], gateway))
  }

  /** The elements of `s` in the opposite order. */
  function Reversed<T>(s: seq<T>): (r: seq<T>)
    ensures |r| == |s|
  {
    if s == [] then [] else Reversed(s[1..]) + [s[0]]
  }

  /** Reversing keeps every element, as often as it occurs. */
  lemma {:induction false} ReversedSameElements<T>(s: seq<T>)
    ensures multiset(Reversed(s)) == multiset(s)
  {
    if s != [] {
      ReversedSameElements(s[1..]);
      assert s == [s[0]] + s[1..];
    }
  }

  /** Position `k` of the reversal holds position `|s| - 1 - k` of the original. */
  lemma {:induction false} ReversedAt<T>(s: seq<T>, k: nat)
    requires k < |s|
    ensures |Reversed(s)| == |s| && Reversed(s)[k] == s[|s| - 1 - k]
  {
    if k < |s| - 1 {
      ReversedAt(s[1..], k);
    }
  }

  /** `cards.reverse()`: reverses the array in place. */
  method ReverseInPlace<T>(a: array<T>)
    modifies a
    ensures a[..] == Reversed(old(a[..]))
  {
    var n, i := a.Length, 0;
    while i < n / 2
      invariant 0 <= i <= n / 2
      invariant forall k :: 0 <= k < i ==> a[k] == old(a[n - 1 - k]) && a[n - 1 - k] == old(a[k])
      invariant forall k :: i <= k < n - i ==> a[k] == old(a[k])
    {
      a[i], a[n - 1 - i] := a[n - 1 - i], a[i];
      i := i + 1;
    }
    ghost var before := old(a[..]);
    forall k | 0 <= k < n ensures a[..][k] == Reversed(before)[k] {
      ReversedAt(before, k);
    }
  }

  /**
    The stored gallery is newest first: as many cards as images, card `k` showing
    the image with id `total - 1 - k`, the most recent upload at the top.
  */
  lemma NewestFirst(records: seq<ImageRecord>, gateway: string, k: nat)
    requires k < |records|
    ensures |Reversed(Cards(records, gateway))| == |records|
    ensures Reversed(Cards(records, gateway))[k] == CardFor(|records| - 1 - k, records[|records| - 1 - k], gateway)
    ensures Reversed(Cards(records, gateway))[k].id == ToRadixString(|records| - 1 - k, 10)
  {
    ReversedAt(Cards(records, gateway), k);
  }

  /** Two cards of the gallery never share an id, so each has its own entry in the decrypted-stats cache. */
  lemma CardIdsDistinct(records: seq<ImageRecord>, gateway: string, j: nat, k: nat)
    requires j < k < |records|
    ensures Reversed(Cards(records, gateway))[j].id != Reversed(Cards(records, gateway))[k].id
  {
    NewestFirst(records, gateway, j);
    NewestFirst(records, gateway, k);
  }
}
