/**
 * The values shared by DspFeature.kt, ConfigRepository.kt and Ui.kt: a saved DSP
 * configuration, the persisted preferences, and the order in which an equalizer map's
 * bands are listed (`toList().sortedBy { it.first }`).
 */
module DspModel {
  import opened Wrappers
  import opened LinkedMaps
  import opened Sorting

  /** `DspConfig`: an id, equalizer gains in dB keyed by band frequency in Hz (a Kotlin
      map, so an insertion-ordered entry list), the bass boost gain and the post gain. */
  datatype DspConfig = DspConfig(id: string, eqDb: Entries<int, int>, bassBoostDb: int, postGainDb: int)

  /** The persisted preferences the core reads and writes: the DSP switch, the recovery
      seed for the session list, the saved configs by id, the config chosen per device
      id, and the usage timestamps (milliseconds) per config id. */
  datatype DspPrefs = DspPrefs(
    dspEnabled: bool,
    lastAudioSessionId: Option<int>,
    configs: Entries<string, DspConfig>,
    configsByDevice: map<string, string>,
    configUsages: map<string, seq<int>>)

  /** Entries compared by band. */
  function ByBand<V>(): ((int, V), (int, V)) -> bool {
    (p: (int, V), q: (int, V)) => p.0 <= q.0
  }

  predicate StrictlyAscendingBands<V>(kvs: Entries<int, V>) {
    forall i, j :: 0 <= i < j < |kvs| ==> kvs[i].0 < kvs[j].0
  }

  /** `toList().sortedBy { it.first }`: the same entries, ordered by band. */
  function SortedByBand<V(!new)>(eq: Entries<int, V>): (r: Entries<int, V>)
    ensures multiset(r) == multiset(eq)
    ensures SortedBy(r, ByBand())
  {
    SortSorted(eq, ByBand());
    Sort(eq, ByBand())
  }

  /** The keys of a list are those of any rearrangement of it. */
  lemma KeysOfPermutation<V>(a: Entries<int, V>, b: Entries<int, V>)
    requires multiset(a) == multiset(b)
    ensures Keys(a) == Keys(b)
  {
    forall k | k in Keys(a) ensures k in Keys(b) {
      var i :| 0 <= i < |a| && a[i].0 == k;
      assert a[i] in multiset(b);
      var j :| 0 <= j < |b| && b[j] == a[i];
    }
    forall k | k in Keys(b) ensures k in Keys(a) {
      var i :| 0 <= i < |b| && b[i].0 == k;
      assert b[i] in multiset(a);
      var j :| 0 <= j < |a| && a[j] == b[i];
    }
  }

  /** Inserting an entry with a new band keeps bands distinct. */
  lemma {:induction false} InsertDistinct<V>(x: (int, V), s: Entries<int, V>)
    requires DistinctKeys(s) && x.0 !in Keys(s)
    ensures DistinctKeys(Insert(x, s, ByBand()))
  {
    var r := Insert(x, s, ByBand());
    if s == [] {
    } else if ByBand()(x, s[0]) {
      assert r[1..] == s;
      DistinctCons(r);
    } else {
      var t := s[1..];
      DistinctCons(s);
      KeysCons(s);
      InsertDistinct(x, t);
      var u := Insert(x, t, ByBand());
      assert r == [s[0]] + u && r[1..] == u;
      KeysOfPermutation(u, [x] + t);
      KeysCons([x] + t);
      assert ([x] + t)[1..] == t;
      DistinctCons(r);
    }
  }

  /** Sorting keeps bands distinct. */
  lemma {:induction false} SortDistinct<V>(eq: Entries<int, V>)
    requires DistinctKeys(eq)
    ensures DistinctKeys(Sort(eq, ByBand()))
  {
    if eq != [] {
      DistinctCons(eq);
      SortDistinct(eq[1..]);
      KeysOfPermutation(Sort(eq[1..], ByBand()), eq[1..]);
      InsertDistinct(eq[0], Sort(eq[1..], ByBand()));
    }
  }

  /** The bands of an equalizer map, listed by band, are strictly ascending and are
      exactly the map's bands. */
  lemma SortedByBandStrict<V(!new)>(eq: Entries<int, V>)
    requires DistinctKeys(eq)
    ensures StrictlyAscendingBands(SortedByBand(eq))
    ensures DistinctKeys(SortedByBand(eq))
    ensures Keys(SortedByBand(eq)) == Keys(eq)
  {
    SortDistinct(eq);
    KeysOfPermutation(SortedByBand(eq), eq);
  }
}
