/** Bounded kernel maps from keys to log2 histograms, shared by the latency gadgets. */
module HistMaps {
  import opened BpfMaps
  import opened Histograms
  import opened Powers
  import opened Slots
  import opened Sums

  type Hists<K> = map<K, seq<nat>>

  function ZeroHist(): (h: seq<nat>)
    ensures |h| == MAX_OCTAVES && forall i :: 0 <= i < |h| ==> h[i] == 0
  {
    seq(MAX_OCTAVES, _ => 0)
  }

  ghost predicate Sound<K>(hists: Hists<K>)
  {
    forall k :: k in hists ==> |hists[k]| == MAX_OCTAVES
  }

  /** `__sync_fetch_and_add(&h->slots[slot], 1)`. */
  function Bump<K>(hists: Hists<K>, key: K, slot: nat): (hists': Hists<K>)
    requires key in hists && slot < |hists[key]|
    ensures Sound(hists) ==> Sound(hists')
    ensures hists'.Keys == hists.Keys
  {
    hists[key := hists[key][slot := hists[key][slot] + 1]]
  }

  predicate Admits<K>(hists: Hists<K>, maxKeys: nat, key: K)
  {
    key in hists || |hists| < maxKeys
  }

  /** Find or create the histogram of `key` and count one sample; a key the full map
      refuses is not created. */
  function Aggregated<K>(hists: Hists<K>, maxKeys: nat, key: K, slot: nat): (hists': Hists<K>)
    requires Sound(hists) && slot < MAX_OCTAVES
    ensures Sound(hists')
  {
    var grown := PutNew(hists, maxKeys, key, ZeroHist());
    if key in grown then Bump(grown, key, slot) else grown
  }

  /** The same as the handlers do it: look up, insert a zero histogram, look up again, add. */
  method Count<K(==)>(hists: Hists<K>, maxKeys: nat, key: K, delta: nat) returns (hists': Hists<K>, recorded: bool)
    requires Sound(hists) && delta < U64
    ensures hists' == Aggregated(hists, maxKeys, key, Log2Slot(delta))
    ensures recorded <==> Admits(hists, maxKeys, key)
  {
    hists' := hists;
    if key !in hists' {
      hists' := PutNew(hists', maxKeys, key, ZeroHist());
      if key !in hists' {
        return hists', false;
      }
    }
    var slot := CappedLog2(delta);
    return Bump(hists', key, slot), true;
  }

  function HistAt<K>(hists: Hists<K>, key: K, slot: nat): nat
  {
    if key in hists && slot < |hists[key]| then hists[key][slot] else 0
  }

  lemma AggregatedAt<K>(hists: Hists<K>, maxKeys: nat, k: K, b: nat, key: K, slot: nat)
    requires Sound(hists) && Admits(hists, maxKeys, k) && b < MAX_OCTAVES
    ensures HistAt(Aggregated(hists, maxKeys, k, b), key, slot)
            == HistAt(hists, key, slot) + if k == key && b == slot then 1 else 0
  {}

  lemma AggregatedKeys<K>(hists: Hists<K>, maxKeys: nat, key: K, slot: nat)
    requires Sound(hists) && slot < MAX_OCTAVES
    ensures Aggregated(hists, maxKeys, key, slot).Keys
            == if Admits(hists, maxKeys, key) then hists.Keys + {key} else hists.Keys
  {
  }

  // ---- totals -----------------------------------------------------------------------

  function KeyTotal<K>(hists: Hists<K>): K -> nat
  {
    key => if key in hists then Total(hists[key]) else 0
  }

  /** Every sample in the map. */
  ghost function Recorded<K>(hists: Hists<K>): nat
  {
    SumOver(hists.Keys, KeyTotal(hists))
  }

  lemma RecordedNewKey<K>(hists: Hists<K>, key: K)
    requires key !in hists
    ensures Recorded(hists[key := ZeroHist()]) == Recorded(hists)
  {
    var grown := hists[key := ZeroHist()];
    TotalZero(ZeroHist());
    assert grown.Keys == hists.Keys + {key};
    SumOverGrow(hists.Keys, grown.Keys, KeyTotal(grown));
    SumOverSame(hists.Keys, KeyTotal(grown), KeyTotal(hists));
  }

  lemma RecordedBump<K>(hists: Hists<K>, key: K, slot: nat)
    requires key in hists && slot < |hists[key]|
    ensures Recorded(Bump(hists, key, slot)) == Recorded(hists) + 1
  {
    var bumped := Bump(hists, key, slot);
    TotalBump(hists[key], slot);
    SumOverBump(hists.Keys, KeyTotal(hists), KeyTotal(bumped), key);
  }

  lemma NewKeyAccounted<K>(hists: Hists<K>, capacity: nat, key: K)
    requires |hists| <= capacity
    ensures var grown := PutNew(hists, capacity, key, ZeroHist());
            && Recorded(grown) == Recorded(hists) && |hists| <= |grown| <= capacity
            && (key in grown <==> Admits(hists, capacity, key))
            && (key !in grown ==> |grown| == capacity)
  {
    if key !in hists && |hists| < capacity {
      RecordedNewKey(hists, key);
      InsertSize(hists, key, ZeroHist());
    }
  }

  lemma SameKeysSameSize<K>(m: Hists<K>, m': Hists<K>)
    requires m.Keys == m'.Keys
    ensures |m| == |m'|
  {
    assert |m| == |m.Keys| && |m'| == |m'.Keys|;
  }

  /** One more sample is in the map, or was refused by a full one; no entry ever leaves. */
  lemma SampleAccounted<K>(hists: Hists<K>, maxKeys: nat, key: K, slot: nat)
    requires Sound(hists) && slot < MAX_OCTAVES && |hists| <= maxKeys
    ensures var hists' := Aggregated(hists, maxKeys, key, slot);
            && Recorded(hists') + (if Admits(hists, maxKeys, key) then 0 else 1) == Recorded(hists) + 1
            && |hists| <= |hists'| <= maxKeys
            && (!Admits(hists, maxKeys, key) ==> |hists'| == maxKeys)
  {
    var grown := PutNew(hists, maxKeys, key, ZeroHist());
    NewKeyAccounted(hists, maxKeys, key);
    if key in grown {
      RecordedBump(grown, key, slot);
      SameKeysSameSize(grown, Bump(grown, key, slot));
    }
  }

  // ---- the samples behind a map -------------------------------------------------------

  lemma CountOneMore(bs: seq<nat>, more: seq<nat>, slot: nat)
    requires |more| <= 1
    ensures CountOf(bs + more, slot) == CountOf(bs, slot) + if more != [] && more[0] == slot then 1 else 0
  {
    if more == [] {
      assert bs + more == bs;
    } else {
      assert (bs + more)[..|bs|] == bs;
    }
  }

  /** The slot of at most one duration. */
  function SlotsOf(more: seq<nat>): (slots: seq<nat>)
  {
    if more == [] then [] else [Log2Slot(more[0])]
  }

  lemma BucketsAppend(before: seq<nat>, more: seq<nat>)
    requires |more| <= 1
    ensures Buckets(before + more, Log2Slot) == Buckets(before, Log2Slot) + SlotsOf(more)
  {
  }

  ghost function HistogramOf(samples: seq<nat>): seq<nat>
  {
    Histogram(Buckets(samples, Log2Slot), MAX_OCTAVES)
  }

  /** A map that counts a key's samples slot by slot holds their histogram, and has an entry for
      the key if there are any. */
  lemma EntryIsHistogram<K>(hists: Hists<K>, key: K, samples: seq<nat>)
    requires Sound(hists)
    requires forall slot :: 0 <= slot < MAX_OCTAVES
               ==> HistAt(hists, key, slot) == CountOf(Buckets(samples, Log2Slot), slot)
    ensures if key in hists then hists[key] == HistogramOf(samples) else samples == []
  {
    var bs := Buckets(samples, Log2Slot);
    if key in hists {
      forall slot | 0 <= slot < MAX_OCTAVES ensures hists[key][slot] == Histogram(bs, MAX_OCTAVES)[slot] {
        assert HistAt(hists, key, slot) == hists[key][slot];
      }
    } else {
      forall slot | 0 <= slot < MAX_OCTAVES ensures Histogram(bs, MAX_OCTAVES)[slot] == 0 {
        assert HistAt(hists, key, slot) == 0;
      }
      HistogramTotal(bs, MAX_OCTAVES);
      TotalZero(Histogram(bs, MAX_OCTAVES));
    }
  }
}
