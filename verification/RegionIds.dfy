/** Region ids: the leading 64 bits of a digest, never zero, and linear probing
    (with 64-bit wrap-around) past ids already taken. */
module RegionIds {
  import opened Support
  import opened Sequences
  import opened Boxes
  import opened Certificates
  import opened Lect

  function HexValue(c: char): nat {
    if '0' <= c <= '9' then (c - '0') as nat else if 'a' <= c <= 'f' then (c - 'a') as nat + 10 else 0
  }

  function Power16(n: nat): nat {
    if n == 0 then 1 else 16 * Power16(n - 1)
  }

  /** The value of the first `n` hexadecimal digits. */
  function HexPrefix(digest: string, n: nat): (value: nat)
    requires n <= |digest|
    ensures value < Power16(n)
  {
    if n == 0 then 0 else 16 * HexPrefix(digest, n - 1) + HexValue(digest[n - 1])
  }

  lemma {:induction false} SixteenDigits()
    ensures Power16(16) == TWO_TO_THE_64
  {
    assert Power16(4) == 0x1_0000;
    assert Power16(8) == 0x1_0000_0000;
    assert Power16(12) == 0x1_0000_0000_0000;
  }

  /** The first sixteen digits as a 64-bit id, with zero replaced by one. */
  function IdOfDigest(digest: string): (id: U64)
    requires ValidSha256(digest)
    ensures id != 0
  {
    SixteenDigits();
    if HexPrefix(digest, 16) == 0 then 1 else HexPrefix(digest, 16)
  }

  method ParseId(digest: string) returns (id: U64)
    requires ValidSha256(digest)
    ensures id == IdOfDigest(digest)
  {
    var result: nat := 0;
    SixteenDigits();
    for index := 0 to 16
      invariant result == HexPrefix(digest, index)
    {
      result := 16 * result + HexValue(digest[index]);
    }
    id := if result == 0 then 1 else result;
  }

  function RegionTree(cell: Workcell, box: Box, source: NodeKey): Json {
    JArray([JString(cell.robotDigest), JString(cell.sceneDigest), AxesTree(box), JString(source.Path())])
  }

  function RepairTree(cell: Workcell, box: Box, source: NodeKey): Json {
    JArray([JString(cell.robotDigest), JString(cell.sceneDigest), JString("repair-domain"), AxesTree(box),
            JString(source.Path())])
  }

  // ----- probing

  /** The id `k` increments after `id`, in 64-bit arithmetic. */
  function After(id: U64, k: nat): U64 {
    (id + k) % TWO_TO_THE_64
  }

  lemma {:induction false} AfterAfter(id: U64, k: nat)
    requires k < TWO_TO_THE_64
    ensures After(After(id, 1), k) == After(id, k + 1)
  {
    if id + 1 < TWO_TO_THE_64 {
    } else {
      assert After(id, 1) == 0;
      assert (id + k + 1) % TWO_TO_THE_64 == k;
    }
  }

  /** How many increments reach a free id: at most the number of taken ones. */
  function Probes(id: U64, taken: set<U64>): (k: nat)
    requires |taken| < TWO_TO_THE_64
    ensures k <= |taken| && After(id, k) !in taken
    ensures forall j :: 0 <= j < k ==> After(id, j) in taken
    decreases |taken|
  {
    if id !in taken then
      assert After(id, 0) == id;
      0
    else
      var k := Probes(After(id, 1), taken - {id});
      assert After(id, 0) == id;
      AfterAfter(id, k);
      assert After(id, k + 1) != id;
      assert forall j :: 0 <= j < k + 1 ==> After(id, j) in taken by {
        forall j | 0 < j < k + 1 ensures After(id, j) in taken {
          AfterAfter(id, j - 1);
          assert After(After(id, 1), j - 1) in taken - {id};
        }
      }
      k + 1
  }

  function FreeId(id: U64, taken: set<U64>): (free: U64)
    requires |taken| < TWO_TO_THE_64
    ensures free !in taken && (id !in taken ==> free == id)
  {
    assert After(id, 0) == id;
    After(id, Probes(id, taken))
  }

  method ProbeId(id: U64, taken: set<U64>) returns (free: U64)
    requires |taken| < TWO_TO_THE_64
    ensures free == FreeId(id, taken)
  {
    free := id;
    ghost var k := 0;
    while free in taken
      invariant k <= Probes(id, taken) && free == After(id, k)
      decreases Probes(id, taken) - k
    {
      AfterOnce(id, k);
      free := if free == TWO_TO_THE_64 - 1 then 0 else free + 1;
      k := k + 1;
    }
  }

  lemma {:induction false} AfterOnce(id: U64, k: nat)
    requires k < TWO_TO_THE_64
    ensures After(id, k + 1) == if After(id, k) == TWO_TO_THE_64 - 1 then 0 else After(id, k) + 1
  {
  }

  function Taken(ids: seq<U64>): (taken: set<U64>)
    ensures |taken| <= |ids| && forall id :: id in taken <==> id in ids
  {
    if ids == [] then {} else
      assert ids == ids[..|ids| - 1] + [Last(ids)];
      Taken(ids[..|ids| - 1]) + {Last(ids)}
  }

  /** Each wanted id in turn, moved past the ones taken before it. */
  function AssignIds(wanted: seq<U64>): (ids: seq<U64>)
    requires |wanted| <= TWO_TO_THE_64
    ensures |ids| == |wanted|
  {
    if wanted == [] then [] else
      var before := AssignIds(wanted[..|wanted| - 1]);
      before + [FreeId(Last(wanted), Taken(before))]
  }

  lemma {:induction false} AssignLast(wanted: seq<U64>, id: U64)
    requires |wanted| < TWO_TO_THE_64
    ensures var before := AssignIds(wanted);
            && AssignIds(wanted + [id]) == before + [FreeId(id, Taken(before))]
            && Taken(AssignIds(wanted + [id])) == Taken(before) + {FreeId(id, Taken(before))}
  {
    assert (wanted + [id])[..|wanted|] == wanted && Last(wanted + [id]) == id;
    var after := AssignIds(wanted + [id]);
    assert after[..|wanted|] == AssignIds(wanted);
  }

  /** Assigned ids are pairwise different ... */
  lemma {:induction false} AssignedAreDistinct(wanted: seq<U64>)
    requires |wanted| <= TWO_TO_THE_64
    ensures NoDuplicates(AssignIds(wanted))
  {
    if wanted != [] {
      AssignedAreDistinct(wanted[..|wanted| - 1]);
    }
  }

  /** ... and are the wanted ones when those do not collide. */
  lemma {:induction false} DistinctIdsAreKept(wanted: seq<U64>)
    requires |wanted| <= TWO_TO_THE_64 && NoDuplicates(wanted)
    ensures AssignIds(wanted) == wanted
  {
    if wanted != [] {
      LastIsNew(wanted);
      DistinctIdsAreKept(wanted[..|wanted| - 1]);
    }
  }
}
