// Saved-network ordering and the scan listing (src/captive_portal.cpp):
// the in-place priority sort of the configured networks, the first-success
// connection loop over them, and the JSON text of a WiFi scan. Whether a
// connection attempt succeeds, and what the scan found, are inputs.

module CaptivePortal {
  import opened Common
  import Config

  type Network = Config.Network

  // ---------------------------------------------------------------------
  // Priority order
  // ---------------------------------------------------------------------

  /** Highest priority first. */
  predicate SortedByPriority(s: seq<Network>)
  {
    forall x, y :: 0 <= x < y < |s| ==> s[x].priority >= s[y].priority
  }

  /** The networks of priority `p`, in order. */
  function WithPriority(s: seq<Network>, p: int): (r: seq<Network>)
    ensures |r| <= |s|
  {
    if |s| == 0 then []
    else WithPriority(s[..|s| - 1], p) + (if s[|s| - 1].priority == p then [s[|s| - 1]] else [])
  }

  /** Networks of equal priority keep their relative order. */
  ghost predicate SameTies(s: seq<Network>, t: seq<Network>)
  {
    forall p :: WithPriority(s, p) == WithPriority(t, p)
  }

  lemma {:induction false} WithPriorityAppend(s: seq<Network>, t: seq<Network>, p: int)
    ensures WithPriority(s + t, p) == WithPriority(s, p) + WithPriority(t, p)
    decreases |t|
  {
    if |t| == 0 {
      assert s + t == s;
    } else {
      assert (s + t)[..|s + t| - 1] == s + t[..|t| - 1];
      WithPriorityAppend(s, t[..|t| - 1], p);
    }
  }

  /** Exchanging neighbours of different priority. */
  function Swap(s: seq<Network>, j: nat): seq<Network>
    requires j + 1 < |s|
  {
    s[j := s[j + 1]][j + 1 := s[j]]
  }

  /**
   * The exchange the sort makes (a lower priority before a higher one)
   * moves no network past another of its own priority.
   */
  lemma SwapKeepsTies(s: seq<Network>, j: nat)
    requires j + 1 < |s| && s[j].priority < s[j + 1].priority
    ensures SameTies(Swap(s, j), s)
    ensures multiset(Swap(s, j)) == multiset(s)
  {
    var a, b := s[j], s[j + 1];
    var pre, post := s[..j], s[j + 2..];
    assert s == pre + [a, b] + post;
    assert Swap(s, j) == pre + [b, a] + post;
    forall p
      ensures WithPriority(Swap(s, j), p) == WithPriority(s, p)
    {
      ExchangeKeepsTies(pre, a, b, post, p);
    }
  }

  lemma ExchangeKeepsTies(pre: seq<Network>, a: Network, b: Network, post: seq<Network>, p: int)
    requires a.priority != b.priority
    ensures WithPriority(pre + [b, a] + post, p) == WithPriority(pre + [a, b] + post, p)
  {
    WithPriorityAppend(pre + [a, b], post, p);
    WithPriorityAppend(pre + [b, a], post, p);
    WithPriorityAppend(pre, [a, b], p);
    WithPriorityAppend(pre, [b, a], p);
    assert [a, b][..1] == [a];
    assert [b, a][..1] == [b];
  }

  /** Rearranged without moving any network past another of its own priority. */
  ghost predicate Rearranged(s: seq<Network>, t: seq<Network>)
  {
    multiset(s) == multiset(t) && SameTies(s, t)
  }

  /**
   * The slots from `m` on hold the lowest priorities of `s` in priority
   * order: what a bubble pass leaves behind it.
   */
  ghost predicate SettledFrom(s: seq<Network>, m: nat)
  {
    m <= |s| &&
    (forall x, y :: m <= x < y < |s| ==> s[x].priority >= s[y].priority) &&
    (forall x, y :: 0 <= x < m <= y < |s| ==> s[x].priority >= s[y].priority)
  }

  /** One comparison of the inner loop, exchanging the neighbours when they are out of order. */
  method Compare(nets: array<Network>, count: nat, j: nat)
    requires j + 1 < count <= nets.Length
    modifies nets
    ensures nets[..count] == CompareExchange(old(nets[..count]), j)
    ensures nets[count..] == old(nets[count..])
  {
    if nets[j].priority < nets[j + 1].priority {
      nets[j], nets[j + 1] := nets[j + 1], nets[j];
    }
  }

  /** No slot before `j` holds a lower priority than slot `j`. */
  ghost predicate LowestLast(s: seq<Network>, j: nat)
    requires j < |s|
  {
    forall x :: 0 <= x < j ==> s[x].priority >= s[j].priority
  }

  /** One comparison of the inner loop, with the exchange it makes. */
  function CompareExchange(s: seq<Network>, j: nat): seq<Network>
    requires j + 1 < |s|
  {
    if s[j].priority < s[j + 1].priority then Swap(s, j) else s
  }

  /** A comparison carries the lowest priority seen so far one slot on. */
  lemma CompareExchangeStep(s: seq<Network>, m: nat, j: nat)
    requires j + 1 < m <= |s| && SettledFrom(s, m) && LowestLast(s, j)
    ensures var t := CompareExchange(s, j);
      |t| == |s| && SettledFrom(t, m) && LowestLast(t, j + 1) && Rearranged(t, s)
  {
    var t := CompareExchange(s, j);
    if s[j].priority < s[j + 1].priority {
      SwapKeepsTies(s, j);
    } else {
      assert SameTies(t, s);
    }
  }

  /** At the end of a pass the slot just filled is settled too. */
  lemma PassEnd(s: seq<Network>, m: nat)
    requires 0 < m <= |s| && SettledFrom(s, m) && LowestLast(s, m - 1)
    ensures SettledFrom(s, m - 1)
  {
  }

  /**
   * One pass of the inner loop: carries the lowest priority among the
   * unsettled slots into the last of them.
   */
  method BubblePass(nets: array<Network>, count: nat, i: nat)
    requires i + 1 < count <= nets.Length
    requires SettledFrom(nets[..count], count - i)
    modifies nets
    ensures SettledFrom(nets[..count], count - i - 1)
    ensures Rearranged(nets[..count], old(nets[..count]))
    ensures nets[count..] == old(nets[count..])
  {
    var j := 0;
    while j < count - i - 1
      invariant 0 <= j <= count - i - 1
      invariant SettledFrom(nets[..count], count - i)
      invariant LowestLast(nets[..count], j)
      invariant Rearranged(nets[..count], old(nets[..count]))
      invariant nets[count..] == old(nets[count..])
    {
      ghost var before := nets[..count];
      CompareExchangeStep(before, count - i, j);
      Compare(nets, count, j);
      RearrangedTrans(nets[..count], before, old(nets[..count]));
      j := j + 1;
    }
    PassEnd(nets[..count], count - i);
  }

  lemma RearrangedTrans(a: seq<Network>, b: seq<Network>, c: seq<Network>)
    requires Rearranged(a, b) && Rearranged(b, c)
    ensures Rearranged(a, c)
  {
    forall p
      ensures WithPriority(a, p) == WithPriority(c, p)
    {
      assert WithPriority(a, p) == WithPriority(b, p);
    }
  }

  /**
   * The sort in tryConnectSavedNetworks: a bubble sort of the first `count`
   * slots by descending priority, exchanging neighbours only when the first
   * has the strictly lower priority. The slots in use end up in priority
   * order, as a permutation of what they held with equal priorities in
   * their old order; the other slots are untouched.
   */
  method SortByPriority(nets: array<Network>, count: nat)
    requires count <= nets.Length
    modifies nets
    ensures SortedByPriority(nets[..count])
    ensures Rearranged(nets[..count], old(nets[..count]))
    ensures nets[count..] == old(nets[count..])
  {
    if count == 0 {
      return;
    }
    var i := 0;
    while i < count - 1
      invariant 0 <= i <= count - 1
      invariant SettledFrom(nets[..count], count - i)
      invariant Rearranged(nets[..count], old(nets[..count]))
      invariant nets[count..] == old(nets[count..])
    {
      ghost var before := nets[..count];
      BubblePass(nets, count, i);
      RearrangedTrans(nets[..count], before, old(nets[..count]));
      i := i + 1;
    }
  }

  // ---------------------------------------------------------------------
  // Trying the saved networks
  // ---------------------------------------------------------------------

  /** Whether the k-th connection attempt succeeds (attempts beyond the outcomes given fail). */
  predicate Connects(outcomes: seq<bool>, k: nat)
  {
    k < |outcomes| && outcomes[k]
  }

  /** The attempts made over networks `k..count`: up to and including the first success. */
  function AttemptsFrom(outcomes: seq<bool>, k: nat, count: nat): (n: nat)
    requires k <= count
    ensures k <= n <= count
    ensures forall m :: k <= m < n - 1 ==> !Connects(outcomes, m)
    ensures n < count ==> k < n && Connects(outcomes, n - 1)
    ensures n == count && k < count ==> forall m :: k <= m < count - 1 ==> !Connects(outcomes, m)
    decreases count - k
  {
    if k == count then count
    else if Connects(outcomes, k) then k + 1
    else AttemptsFrom(outcomes, k + 1, count)
  }

  /** The number of networks tryConnectSavedNetworks tries. */
  function AttemptsMade(outcomes: seq<bool>, count: nat): nat
  {
    AttemptsFrom(outcomes, 0, count)
  }

  function Ssids(s: seq<Network>): (r: seq<string>)
    ensures |r| == |s| && forall k :: 0 <= k < |s| ==> r[k] == s[k].ssid
  {
    seq(|s|, k requires 0 <= k < |s| => s[k].ssid)
  }

  /**
   * tryConnectSavedNetworks: with no saved network, no attempt and false;
   * otherwise sorts the slots in use and tries them in that order, stopping
   * at the first success, and reports whether one succeeded.
   */
  method TryConnectSaved(store: Config.Store, outcomes: seq<bool>) returns (ok: bool, tried: seq<string>)
    requires store.Valid()
    modifies store.networks
    ensures store.networkCount == 0 ==> !ok && tried == [] && store.networks[..] == old(store.networks[..])
    ensures var n := store.networkCount;
      && SortedByPriority(store.networks[..n])
      && Rearranged(store.networks[..n], old(store.networks[..n]))
      && store.networks[n..] == old(store.networks[n..])
    ensures ok <==> exists k :: 0 <= k < store.networkCount && Connects(outcomes, k)
    ensures tried == Ssids(store.networks[..AttemptsMade(outcomes, store.networkCount)])
  {
    var count := store.networkCount;
    var nets := store.networks;
    if count == 0 {
      return false, [];
    }
    SortByPriority(nets, count);
    ok, tried := TryInOrder(nets, count, outcomes);
  }

  /**
   * The attempt loop of tryConnectSavedNetworks over the first `count`
   * slots: tries them in order, stops at the first that connects, and
   * reports whether one did.
   */
  method TryInOrder(nets: array<Network>, count: nat, outcomes: seq<bool>) returns (ok: bool, tried: seq<string>)
    requires count <= nets.Length
    ensures ok <==> exists k :: 0 <= k < count && Connects(outcomes, k)
    ensures tried == Ssids(nets[..AttemptsMade(outcomes, count)])
  {
    tried := [];
    var i := 0;
    while i < count
      invariant 0 <= i <= count
      invariant forall k :: 0 <= k < i ==> !Connects(outcomes, k)
      invariant AttemptsFrom(outcomes, i, count) == AttemptsMade(outcomes, count)
      invariant tried == Ssids(nets[..i])
    {
      tried := tried + [nets[i].ssid];
      if Connects(outcomes, i) {
        return true, tried;
      }
      i := i + 1;
    }
    ok := false;
  }

  // ---------------------------------------------------------------------
  // Scan listing
  // ---------------------------------------------------------------------

  /** One network a WiFi scan reports. */
  datatype ScanEntry = ScanEntry(ssid: string, rssi: int, encryption: int)

  function ObjectText(e: ScanEntry): string
  {
    "{\"ssid\":\"" + e.ssid + "\",\"rssi\":" + IntToString(e.rssi) + ",\"encryption\":" +
    IntToString(e.encryption) + "}"
  }

  /** The parts separated by single commas. */
  function Join(parts: seq<string>): string
  {
    if |parts| == 0 then ""
    else if |parts| == 1 then parts[0]
    else parts[0] + "," + Join(parts[1..])
  }

  lemma {:induction false} JoinSnoc(parts: seq<string>, x: string)
    requires |parts| > 0
    ensures Join(parts + [x]) == Join(parts) + "," + x
    decreases |parts|
  {
    if |parts| == 1 {
      assert (parts + [x])[1..] == [x];
    } else {
      assert (parts + [x])[1..] == parts[1..] + [x];
      JoinSnoc(parts[1..], x);
    }
  }

  function Objects(es: seq<ScanEntry>): (r: seq<string>)
    ensures |r| == |es| && forall k :: 0 <= k < |es| ==> r[k] == ObjectText(es[k])
  {
    seq(|es|, k requires 0 <= k < |es| => ObjectText(es[k]))
  }

  lemma ObjectsSnoc(es: seq<ScanEntry>, i: nat)
    requires i < |es|
    ensures Objects(es[..i + 1]) == Objects(es[..i]) + [ObjectText(es[i])]
  {
    var a, b := Objects(es[..i + 1]), Objects(es[..i]) + [ObjectText(es[i])];
    assert |a| == |b|;
    forall k | 0 <= k < |a|
      ensures a[k] == b[k]
    {
      if k < i {
        assert es[..i + 1][k] == es[..i][k];
      }
    }
  }

  /** The listing: a JSON array of one object per network, in scan order. */
  function ScanJson(es: seq<ScanEntry>): string
  {
    "[" + Join(Objects(es)) + "]"
  }

  /** An empty scan lists as "[]", and a non-empty one opens with its first object, no comma before it. */
  lemma ScanJsonShape(es: seq<ScanEntry>)
    ensures |es| == 0 ==> ScanJson(es) == "[]"
    ensures |es| > 0 ==> ScanJson(es)[..1 + |ObjectText(es[0])|] == "[" + ObjectText(es[0])
    ensures ScanJson(es)[0] == '[' && ScanJson(es)[|ScanJson(es)| - 1] == ']'
  {
    var parts := Objects(es);
    var j := Join(parts);
    assert ScanJson(es) == "[" + j + "]";
    if |es| > 0 {
      JoinOpens(parts);
      var n := |parts[0]|;
      assert parts[0] == ObjectText(es[0]);
      assert ("[" + j + "]")[..1 + n] == "[" + j[..n];
    }
  }

  /** A non-empty join starts with its first part. */
  lemma JoinOpens(parts: seq<string>)
    requires |parts| > 0
    ensures |parts[0]| <= |Join(parts)| && Join(parts)[..|parts[0]|] == parts[0]
  {
    if |parts| > 1 {
      assert Join(parts) == parts[0] + ("," + Join(parts[1..]));
    }
  }

  /** Where part `k` starts in the joined text: after each earlier part and its comma. */
  function JoinOffset(parts: seq<string>, k: nat): nat
    requires k <= |parts|
  {
    if k == 0 then 0 else JoinOffset(parts, k - 1) + |parts[k - 1]| + 1
  }

  lemma {:induction false} JoinOffsetShift(parts: seq<string>, k: nat)
    requires 1 <= k <= |parts|
    ensures JoinOffset(parts, k) == |parts[0]| + 1 + JoinOffset(parts[1..], k - 1)
    decreases k
  {
    if k > 1 {
      JoinOffsetShift(parts, k - 1);
      assert parts[1..][k - 2] == parts[k - 1];
    }
  }

  /** A slice of the text after a prefix is the same slice of that text. */
  lemma SliceAfter(a: string, b: string, x: nat, y: nat)
    requires x <= y <= |b|
    ensures (a + b)[|a| + x..|a| + y] == b[x..y]
  {
  }

  /** A slice within the text before a suffix is the same slice of that text. */
  lemma SliceBefore(a: string, b: string, x: nat, y: nat)
    requires x <= y <= |a|
    ensures (a + b)[x..y] == a[x..y]
  {
  }

  /**
   * The joined text is every part, in order, each at its offset, with a
   * comma before each part but the first and nothing after the last.
   */
  lemma {:induction false} JoinHolds(parts: seq<string>, k: nat)
    requires k < |parts|
    ensures JoinOffset(parts, k) + |parts[k]| <= |Join(parts)|
    ensures Join(parts)[JoinOffset(parts, k)..JoinOffset(parts, k) + |parts[k]|] == parts[k]
    ensures k > 0 ==> Join(parts)[JoinOffset(parts, k) - 1] == ','
    ensures k == |parts| - 1 ==> |Join(parts)| == JoinOffset(parts, k) + |parts[k]|
    decreases k
  {
    if k == 0 {
      JoinOpens(parts);
      if |parts| == 1 {
        assert Join(parts) == parts[0];
      }
    } else {
      var rest := parts[1..];
      var head := parts[0] + ",";
      assert Join(parts) == head + Join(rest);
      JoinOffsetShift(parts, k);
      JoinHolds(rest, k - 1);
      assert rest[k - 1] == parts[k];
      var o := JoinOffset(rest, k - 1);
      SliceAfter(head, Join(rest), o, o + |parts[k]|);
      if k > 1 {
        assert (head + Join(rest))[|head| + o - 1] == Join(rest)[o - 1];
      }
    }
  }

  /** A bracketed listing holds part k at offset 1 + JoinOffset, after a comma unless it is the first. */
  lemma BracketedHolds(parts: seq<string>, k: nat)
    requires k < |parts|
    ensures var at := 1 + JoinOffset(parts, k);
      var text := "[" + Join(parts) + "]";
      at + |parts[k]| < |text|
      && text[at..at + |parts[k]|] == parts[k]
      && (k > 0 ==> text[at - 1] == ',')
      && (k == |parts| - 1 ==> at + |parts[k]| == |text| - 1)
  {
    var j := Join(parts);
    var p := parts[k];
    JoinHolds(parts, k);
    var o := JoinOffset(parts, k);
    assert "[" + j + "]" == "[" + (j + "]");
    SliceBefore(j, "]", o, o + |p|);
    SliceAfter("[", j + "]", o, o + |p|);
    if k > 0 {
      assert ("[" + (j + "]"))[1 + o - 1] == j[o - 1];
    }
  }

  /**
   * The scan listing holds every scan result, in order: the object of
   * result k sits at offset 1 + JoinOffset, after a comma unless it is the
   * first, and the closing bracket follows the last one directly.
   */
  lemma ScanJsonHoldsEvery(es: seq<ScanEntry>, k: nat)
    requires k < |es|
    ensures var at := 1 + JoinOffset(Objects(es), k);
      var obj := Objects(es)[k];
      obj == ObjectText(es[k])
      && at + |obj| < |ScanJson(es)|
      && ScanJson(es)[at..at + |obj|] == obj
      && (k > 0 ==> ScanJson(es)[at - 1] == ',')
      && (k == |es| - 1 ==> at + |obj| == |ScanJson(es)| - 1)
  {
    BracketedHolds(Objects(es), k);
  }

  /** Appending one more object to an open listing, with a comma unless it is the first. */
  lemma ListingStep(json: string, parts: seq<string>, x: string)
    requires json == "[" + Join(parts)
    ensures (if |parts| > 0 then json + "," + x else json + x) == "[" + Join(parts + [x])
  {
    if |parts| > 0 {
      JoinSnoc(parts, x);
      assert "[" + (Join(parts) + "," + x) == json + "," + x;
    } else {
      assert parts + [x] == [x];
      assert Join([x]) == x;
      assert json == "[";
    }
  }

  /** scanWiFiNetworks: the listing assembled object by object. */
  method ScanWiFiNetworks(results: seq<ScanEntry>) returns (json: string)
    ensures json == ScanJson(results)
  {
    json := "[";
    var i := 0;
    while i < |results|
      invariant 0 <= i <= |results|
      invariant json == "[" + Join(Objects(results[..i]))
    {
      var obj := ObjectText(results[i]);
      ListingStep(json, Objects(results[..i]), obj);
      ObjectsSnoc(results, i);
      if i > 0 {
        json := json + "," + obj;
      } else {
        json := json + obj;
      }
      i := i + 1;
    }
    assert results[..i] == results;
    json := json + "]";
  }
}
