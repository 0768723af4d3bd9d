/**
 * The advertisement filter and the device registry, as pure functions over
 * the registry's view (id to the advertisement that created the entry).
 * The filter is a case-insensitive substring test on the name, not a prefix
 * test. Case folding is modelled for ASCII letters.
 */
module Discovery {
  import opened Transport

  const DeviceNamePrefix: string := "BlueBuzzah"

  /** Upper-casing of ASCII letters; other characters are left as they are. */
  function FoldCase(c: char): char
  {
    if 'a' <= c <= 'z' then (c as int - 32) as char else c
  }

  /** Ordinal comparison ignoring case, on strings of the same length. */
  predicate EqualIgnoreCase(a: string, b: string)
  {
    |a| == |b| && forall i :: 0 <= i < |a| ==> FoldCase(a[i]) == FoldCase(b[i])
  }

  /** `p` occurs in `s` at position `i`, ignoring case. */
  predicate OccursAt(s: string, p: string, i: int)
  {
    0 <= i && i + |p| <= |s| && EqualIgnoreCase(s[i..i + |p|], p)
  }

  /** String.Contains(p, OrdinalIgnoreCase), as a left-to-right scan. */
  function ContainsIgnoreCase(s: string, p: string): bool
    decreases |s|
  {
    if |s| < |p| then false
    else EqualIgnoreCase(s[..|p|], p) || ContainsIgnoreCase(s[1..], p)
  }

  /** The scan finds `p` exactly when it occurs somewhere in `s`. */
  lemma {:induction false} ContainsIgnoreCaseIff(s: string, p: string)
    ensures ContainsIgnoreCase(s, p) <==> exists i :: OccursAt(s, p, i)
    decreases |s|
  {
    if |s| >= |p| {
      assert s[0..0 + |p|] == s[..|p|];
      if EqualIgnoreCase(s[..|p|], p) {
        assert OccursAt(s, p, 0);
      } else {
        ContainsIgnoreCaseIff(s[1..], p);
        if exists i :: OccursAt(s, p, i) {
          var i :| OccursAt(s, p, i);
          OccursAtShift(s, p, i - 1);
        }
        if exists i :: OccursAt(s[1..], p, i) {
          var i :| OccursAt(s[1..], p, i);
          OccursAtShift(s, p, i);
        }
      }
    }
  }

  /** An occurrence one position into `s` is an occurrence in its tail, shifted by one. */
  lemma OccursAtShift(s: string, p: string, i: int)
    requires |s| > 0 && i >= 0
    ensures OccursAt(s, p, i + 1) <==> OccursAt(s[1..], p, i)
  {
    if i + 1 + |p| <= |s| {
      assert s[1..][i..i + |p|] == s[i + 1..i + 1 + |p|];
    }
  }

  /** An advertisement passes the filter when it has a non-empty name containing the device prefix. */
  predicate IsGloveAdvertisement(ad: BleDevice)
  {
    ad.name.Some? && ad.name.value != "" && ContainsIgnoreCase(ad.name.value, DeviceNamePrefix)
  }

  /** The filter accepts the prefix anywhere in the name, in any letter case. */
  lemma GloveAdvertisementIff(ad: BleDevice)
    ensures IsGloveAdvertisement(ad)
        <==> ad.name.Some? && exists i :: OccursAt(ad.name.value, DeviceNamePrefix, i)
  {
    if ad.name.Some? {
      ContainsIgnoreCaseIff(ad.name.value, DeviceNamePrefix);
    }
  }

  /** Adding one advertisement to the registry: only accepted ones, only for an id not yet present. */
  function Admit(registry: map<string, BleDevice>, ad: BleDevice): map<string, BleDevice>
  {
    if IsGloveAdvertisement(ad) && ad.id !in registry then registry[ad.id := ad] else registry
  }

  /** The registry after a run of advertisements, in arrival order. */
  function AdmitAll(registry: map<string, BleDevice>, ads: seq<BleDevice>): map<string, BleDevice>
    decreases |ads|
  {
    if ads == [] then registry else AdmitAll(Admit(registry, ads[0]), ads[1..])
  }

  /** The ids the registry ends with: the ones it had plus those of the accepted advertisements. */
  lemma {:induction false} AdmitAllKeys(registry: map<string, BleDevice>, ads: seq<BleDevice>)
    ensures AdmitAll(registry, ads).Keys
         == registry.Keys + set i | 0 <= i < |ads| && IsGloveAdvertisement(ads[i]) :: ads[i].id
    decreases |ads|
  {
    if ads != [] {
      AdmitAllKeys(Admit(registry, ads[0]), ads[1..]);
      var rest := set i | 0 <= i < |ads[1..]| && IsGloveAdvertisement(ads[1..][i]) :: ads[1..][i].id;
      var all := set i | 0 <= i < |ads| && IsGloveAdvertisement(ads[i]) :: ads[i].id;
      assert all == (if IsGloveAdvertisement(ads[0]) then {ads[0].id} else {}) + rest by {
        forall k | k in all
          ensures k in (if IsGloveAdvertisement(ads[0]) then {ads[0].id} else {}) + rest
        {
          var i :| 0 <= i < |ads| && IsGloveAdvertisement(ads[i]) && ads[i].id == k;
          if i > 0 {
            assert ads[1..][i - 1] == ads[i];
          }
        }
        forall k | k in rest ensures k in all {
          var i :| 0 <= i < |ads[1..]| && IsGloveAdvertisement(ads[1..][i]) && ads[1..][i].id == k;
          assert ads[i + 1] == ads[1..][i];
        }
      }
    }
  }

  /** Entries already in the registry are never overwritten. */
  lemma {:induction false} AdmitAllKeepsExisting(registry: map<string, BleDevice>, ads: seq<BleDevice>, id: string)
    requires id in registry
    ensures id in AdmitAll(registry, ads) && AdmitAll(registry, ads)[id] == registry[id]
    decreases |ads|
  {
    if ads != [] {
      AdmitAllKeepsExisting(Admit(registry, ads[0]), ads[1..], id);
    }
  }

  /** First seen wins: an id's entry is the earliest accepted advertisement carrying it. */
  lemma {:induction false} AdmitAllFirstSeen(registry: map<string, BleDevice>, ads: seq<BleDevice>, i: int)
    requires 0 <= i < |ads| && IsGloveAdvertisement(ads[i]) && ads[i].id !in registry
    requires forall j :: 0 <= j < i ==> !(IsGloveAdvertisement(ads[j]) && ads[j].id == ads[i].id)
    ensures ads[i].id in AdmitAll(registry, ads) && AdmitAll(registry, ads)[ads[i].id] == ads[i]
    decreases |ads|
  {
    if i == 0 {
      AdmitAllKeepsExisting(Admit(registry, ads[0]), ads[1..], ads[0].id);
    } else {
      assert !(IsGloveAdvertisement(ads[0]) && ads[0].id == ads[i].id);
      assert ads[1..][i - 1] == ads[i];
      AdmitAllFirstSeen(Admit(registry, ads[0]), ads[1..], i - 1);
    }
  }

  /** Admitting one more advertisement at the end of a run. */
  lemma {:induction false} AdmitAllSnoc(registry: map<string, BleDevice>, ads: seq<BleDevice>, ad: BleDevice)
    ensures AdmitAll(registry, ads + [ad]) == Admit(AdmitAll(registry, ads), ad)
    decreases |ads|
  {
    if ads == [] {
      assert [] + [ad] == [ad];
    } else {
      assert (ads + [ad])[1..] == ads[1..] + [ad];
      AdmitAllSnoc(Admit(registry, ads[0]), ads[1..], ad);
    }
  }

  /** The ids a run of advertisements admits, in the order their first accepted advertisement arrived. */
  function FirstSeenIds(ads: seq<BleDevice>): seq<string>
    decreases |ads|
  {
    if ads == [] then []
    else
      var ids := FirstSeenIds(ads[..|ads| - 1]);
      var ad := ads[|ads| - 1];
      if IsGloveAdvertisement(ad) && ad.id !in ids then ids + [ad.id] else ids
  }

  /** Each admitted id is listed once, and the listed ids are exactly the registry's. */
  lemma {:induction false} FirstSeenIdsSpec(ads: seq<BleDevice>)
    ensures var ids := FirstSeenIds(ads);
            && (forall i, j :: 0 <= i < j < |ids| ==> ids[i] != ids[j])
            && (forall k :: k in ids <==> k in AdmitAll(map[], ads))
    decreases |ads|
  {
    if ads != [] {
      var front, ad := ads[..|ads| - 1], ads[|ads| - 1];
      FirstSeenIdsSpec(front);
      assert ads == front + [ad];
      AdmitAllSnoc(map[], front, ad);
    }
  }
}
