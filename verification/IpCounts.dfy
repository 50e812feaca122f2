/** The per-IP connection counters and counting of map entries by value. */
module IpCounts {

  type Counts = map<string, int>

  /** A missing key reads as zero. */
  function CountOf(counts: Counts, ip: string): int {
    if ip in counts then counts[ip] else 0
  }

  function Incremented(counts: Counts, ip: string): Counts {
    counts[ip := CountOf(counts, ip) + 1]
  }

  /** A counter that would fall to zero or below is deleted. */
  function Decremented(counts: Counts, ip: string): Counts {
    var after := CountOf(counts, ip) - 1;
    if after <= 0 then counts - {ip} else counts[ip := after]
  }

  /** Admission is counted only for a known address and a positive limit. */
  predicate IsCapped(max: int, ip: string) {
    ip != "" && max > 0
  }

  predicate AtLimit(max: int, counts: Counts, ip: string) {
    IsCapped(max, ip) && CountOf(counts, ip) >= max
  }

  function Reserved(max: int, counts: Counts, ip: string): Counts {
    if IsCapped(max, ip) then Incremented(counts, ip) else counts
  }

  function Released(counts: Counts, ip: string): Counts {
    if ip != "" then Decremented(counts, ip) else counts
  }

  // ----- How many entries of a map hold a value -----

  ghost function KeysWith<K(!new), V>(m: map<K, V>, v: V): set<K> {
    set k | k in m && m[k] == v
  }

  ghost function Entries<K(!new), V>(m: map<K, V>, v: V): nat {
    |KeysWith(m, v)|
  }

  lemma EntriesAfterPut<K(!new), V>(m: map<K, V>, k: K, v: V, w: V)
    ensures Entries(m[k := v], w) ==
      Entries(m, w) + (if v == w then 1 else 0) - (if k in m && m[k] == w then 1 else 0)
  {
    if v == w {
      assert KeysWith(m[k := v], w) == KeysWith(m, w) + {k};
    } else {
      assert KeysWith(m[k := v], w) == KeysWith(m, w) - {k};
    }
  }

  lemma EntriesAfterDelete<K(!new), V>(m: map<K, V>, k: K, w: V)
    ensures Entries(m - {k}, w) == Entries(m, w) - (if k in m && m[k] == w then 1 else 0)
  {
    assert KeysWith(m - {k}, w) == KeysWith(m, w) - {k};
  }

  lemma EntriesPositive<K(!new), V>(m: map<K, V>, k: K)
    requires k in m
    ensures Entries(m, m[k]) >= 1
  {
    assert k in KeysWith(m, m[k]);
  }
}
