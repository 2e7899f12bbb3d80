/** Compartment allocation and listing for one locker site: an exact-size search followed
    by a fixed fallback list of sizes, and the filter of available compartments. */
module Allocation {
  import opened Common
  import opened LockerModel

  /** `compartment.size === size && compartment.isAvailable` */
  predicate Fits(c: Compartment, sizeName: string)
  {
    c.isAvailable && SizeName(c.size) == sizeName
  }

  /** `compartments.find(...)` for one size name. */
  function FindAvailable(cs: seq<Compartment>, sizeName: string): Option<nat>
  {
    FirstIndex(cs, c => Fits(c, sizeName))
  }

  /** `i` is the first position holding an available compartment of size `sizeName`. */
  predicate FirstFit(cs: seq<Compartment>, sizeName: string, i: nat)
  {
    i < |cs| && Fits(cs[i], sizeName) && forall j :: 0 <= j < i ==> !Fits(cs[j], sizeName)
  }

  /** The site has no available compartment of size `sizeName`. */
  predicate NoFit(cs: seq<Compartment>, sizeName: string)
  {
    forall j :: 0 <= j < |cs| ==> !Fits(cs[j], sizeName)
  }

  lemma FindAvailableMeaning(cs: seq<Compartment>, sizeName: string)
    ensures FindAvailable(cs, sizeName).Some? ==> FirstFit(cs, sizeName, FindAvailable(cs, sizeName).value)
    ensures FindAvailable(cs, sizeName).None? <==> NoFit(cs, sizeName)
  {
    var r := FindAvailable(cs, sizeName);
    if r.Some? {
      assert Fits(cs[r.value], sizeName);
    }
  }

  /** The hard-coded fallback list, searched in this order whatever size was requested. */
  const FallbackSizes: seq<string> := ["Medium", "Large", "Extra Large"]

  /** The fallback loop: the first compartment found for the first size in `sizes` that has one. */
  function FirstFallback(cs: seq<Compartment>, sizes: seq<string>): (r: Option<nat>)
    ensures r.Some? ==> r.value < |cs| && cs[r.value].isAvailable
    ensures r.Some? ==> SizeName(cs[r.value].size) in sizes
    decreases |sizes|
  {
    if |sizes| == 0 then None
    else match FindAvailable(cs, sizes[0])
      case Some(i) => Some(i)
      case None => FirstFallback(cs, sizes[1..])
  }

  /** The compartment `getAvailableCompartment` picks on a site whose compartments are `cs`. */
  function Allocation(cs: seq<Compartment>, requested: string): (r: Option<nat>)
    ensures r.Some? ==> r.value < |cs| && cs[r.value].isAvailable
  {
    match FindAvailable(cs, requested)
    case Some(i) => Some(i)
    case None => FirstFallback(cs, FallbackSizes)
  }

  datatype AllocError = LockerNotFound | NoAvailableCompartments | ReferenceError

  function AllocErrorMessage(e: AllocError): string
  {
    match e
    case LockerNotFound => "Locker not found."
    case NoAvailableCompartments => "No available compartments found."
    case ReferenceError => "compartments is not defined"
  }

  /** `getAvailableCompartment(selectedLockerSiteId, selectedSize)`, with the fallback search
      run over the site's compartments. It changes nothing (no `modifies`). */
  method GetAvailableCompartment(lockers: map<SiteId, LockerSite>, selectedLockerSiteId: SiteId, selectedSize: string)
    returns (r: Result<Compartment, AllocError>)
    ensures selectedLockerSiteId !in lockers ==> r == Err(LockerNotFound)
    ensures selectedLockerSiteId in lockers ==>
      var cs := lockers[selectedLockerSiteId].compartments;
      match Allocation(cs, selectedSize)
      case Some(i) => r == Ok(cs[i])
      case None => r == Err(NoAvailableCompartments)
  {
    if selectedLockerSiteId !in lockers {
      return Err(LockerNotFound);
    }
    var locker := lockers[selectedLockerSiteId];
    var compartments := locker.compartments;
    var selected := FindAvailable(compartments, selectedSize);
    if selected.None? {
      var k := 0;
      while k < |FallbackSizes|
        invariant 0 <= k <= |FallbackSizes|
        invariant selected.None?
        invariant FirstFallback(compartments, FallbackSizes) == FirstFallback(compartments, FallbackSizes[k..])
      {
        selected := FindAvailable(compartments, FallbackSizes[k]);
        if selected.Some? {
          break;
        }
        assert FallbackSizes[k..][1..] == FallbackSizes[k + 1..];
        k := k + 1;
      }
      assert selected == FirstFallback(compartments, FallbackSizes);
    }
    if selected.Some? {
      return Ok(compartments[selected.value]);
    } else {
      return Err(NoAvailableCompartments);
    }
  }

  /** An available compartment of exactly the requested size wins, and the first one in
      array order is taken. */
  lemma ExactMatchFirst(cs: seq<Compartment>, requested: string, i: nat)
    requires FirstFit(cs, requested, i)
    ensures Allocation(cs, requested) == Some(i)
  {
    FindAvailableMeaning(cs, requested);
    var r := FindAvailable(cs, requested);
    assert r.Some?;
  }

  /** Without an exact match the search takes the first available Medium, else the first
      available Large, else the first available Extra Large, else fails. */
  lemma FallbackChoice(cs: seq<Compartment>, requested: string)
    requires NoFit(cs, requested)
    ensures !NoFit(cs, "Medium") ==>
      Allocation(cs, requested).Some? && FirstFit(cs, "Medium", Allocation(cs, requested).value)
    ensures NoFit(cs, "Medium") && !NoFit(cs, "Large") ==>
      Allocation(cs, requested).Some? && FirstFit(cs, "Large", Allocation(cs, requested).value)
    ensures NoFit(cs, "Medium") && NoFit(cs, "Large") && !NoFit(cs, "Extra Large") ==>
      Allocation(cs, requested).Some? && FirstFit(cs, "Extra Large", Allocation(cs, requested).value)
    ensures NoFit(cs, "Medium") && NoFit(cs, "Large") && NoFit(cs, "Extra Large") ==>
      Allocation(cs, requested).None?
  {
    FindAvailableMeaning(cs, requested);
    FindAvailableMeaning(cs, "Medium");
    FindAvailableMeaning(cs, "Large");
    FindAvailableMeaning(cs, "Extra Large");
    assert FallbackSizes[1..] == ["Large", "Extra Large"];
    assert FallbackSizes[1..][1..] == ["Extra Large"];
    assert FallbackSizes[1..][1..][1..] == [];
  }

  /** The search fails exactly when the site has no available compartment of the
      requested size and none of any fallback size. */
  lemma AllocationNoneIff(cs: seq<Compartment>, requested: string)
    ensures Allocation(cs, requested).None? <==>
      NoFit(cs, requested) && NoFit(cs, "Medium") && NoFit(cs, "Large") && NoFit(cs, "Extra Large")
  {
    FindAvailableMeaning(cs, requested);
    if NoFit(cs, requested) {
      FallbackChoice(cs, requested);
    }
  }

  /** The fallback never hands out a Small compartment: only a request for "Small" can get one. */
  lemma NeverSmallUnlessRequested(cs: seq<Compartment>, requested: string)
    requires Allocation(cs, requested).Some?
    requires cs[Allocation(cs, requested).value].size == Small
    ensures requested == "Small"
  {
    FindAvailableMeaning(cs, requested);
    if FindAvailable(cs, requested).None? {
      assert false;
    }
  }

  /** The legacy downgrade, on the search with the fallback reading `locker.compartments`: a
      Large or Extra Large request with no exact match is served by an available Medium
      compartment, which is smaller than what was asked for. As written the same input
      throws instead (`AsWrittenNeverFallsBack`). */
  lemma LegacyDowngrade(cs: seq<Compartment>, requested: Size)
    requires requested == Large || requested == ExtraLarge
    requires NoFit(cs, SizeName(requested))
    requires !NoFit(cs, "Medium")
    ensures Allocation(cs, SizeName(requested)).Some?
    ensures cs[Allocation(cs, SizeName(requested)).value].size == Medium
    ensures Rank(cs[Allocation(cs, SizeName(requested)).value].size) < Rank(requested)
  {
    FallbackChoice(cs, SizeName(requested));
    var i := Allocation(cs, SizeName(requested)).value;
    assert SizeName(cs[i].size) == "Medium";
  }

  /** A concrete site where, once the fallback reads `locker.compartments`, a Large request is
      served with a Medium compartment. */
  lemma LegacyDowngradeExample()
    ensures var cs := [Compartment("c1", "L01", Medium, true), Compartment("c2", "L02", Large, false)];
      Allocation(cs, "Large") == Some(0) && cs[0].size == Medium
  {
    var cs := [Compartment("c1", "L01", Medium, true), Compartment("c2", "L02", Large, false)];
    assert FirstFit(cs, "Medium", 0);
    assert NoFit(cs, "Large");
    FallbackChoice(cs, "Large");
  }

  /** Site with Small available, Medium taken and Large available: a Medium request gets the Large
      compartment, not the Small one. */
  lemma MediumFallsBackToLarge()
    ensures var cs := [Compartment("c1", "L01", Small, true), Compartment("c2", "L02", Medium, false),
                       Compartment("c3", "L03", Large, true)];
      Allocation(cs, "Medium") == Some(2)
  {
    var cs := [Compartment("c1", "L01", Small, true), Compartment("c2", "L02", Medium, false),
               Compartment("c3", "L03", Large, true)];
    assert NoFit(cs, "Medium");
    assert FirstFit(cs, "Large", 2);
    FallbackChoice(cs, "Medium");
  }

  /** The available compartments of `cs`, in their original order. */
  function AvailableOf(cs: seq<Compartment>): (r: seq<Compartment>)
    ensures |r| <= |cs|
    ensures forall c :: c in r <==> c in cs && c.isAvailable
  {
    if |cs| == 0 then []
    else if cs[0].isAvailable then [cs[0]] + AvailableOf(cs[1..])
    else AvailableOf(cs[1..])
  }

  /** The filter distributes over concatenation, so it keeps the relative order of the
      compartments it keeps. */
  lemma {:induction false} AvailableOfAppend(a: seq<Compartment>, b: seq<Compartment>)
    ensures AvailableOf(a + b) == AvailableOf(a) + AvailableOf(b)
  {
    if |a| == 0 {
      assert a + b == b;
    } else {
      assert (a + b)[1..] == a[1..] + b;
      AvailableOfAppend(a[1..], b);
    }
  }

  /** A site whose compartments were all created with the default flag lists all of them. */
  lemma {:induction false} AllAvailableListed(cs: seq<Compartment>)
    requires forall i :: 0 <= i < |cs| ==> cs[i].isAvailable
    ensures AvailableOf(cs) == cs
  {
    if |cs| > 0 {
      AllAvailableListed(cs[1..]);
    }
  }

  /** A compartment added to a site with the schema default is listed, after the ones
      already listed. */
  lemma NewCompartmentListed(cs: seq<Compartment>, id: CompartmentId, number: string, size: Size)
    ensures AvailableOf(cs + [NewCompartment(id, number, size)]) == AvailableOf(cs) + [NewCompartment(id, number, size)]
  {
    AvailableOfAppend(cs, [NewCompartment(id, number, size)]);
  }

  /** A site built only from compartments created with the schema default is listed in full. */
  lemma NewSiteListed(cs: seq<Compartment>)
    requires forall i :: 0 <= i < |cs| ==> cs[i] == NewCompartment(cs[i].id, cs[i].compartmentNumber, cs[i].size)
    ensures AvailableOf(cs) == cs
  {
    AllAvailableListed(cs);
  }

  /** A compartment that allocation picks is one that listing shows, and a released
      compartment is listed afterwards. */
  lemma AllocatedIsListed(cs: seq<Compartment>, requested: string)
    requires Allocation(cs, requested).Some?
    ensures cs[Allocation(cs, requested).value] in AvailableOf(cs)
  {
  }

  lemma ReleasedIsListed(cs: seq<Compartment>, i: nat)
    requires i < |cs|
    ensures Released(cs, i)[i] in AvailableOf(Released(cs, i))
  {
    ReleaseFrame(cs, i);
  }

  datatype AvailableView = AvailableView(lockerId: SiteId, lockerName: string, compartments: seq<Compartment>)

  /** `getAvailableCompartments(lockerSiteId)`: nothing for a missing site, otherwise the site's
      id, name and its available compartments. */
  function GetAvailableCompartments(lockers: map<SiteId, LockerSite>, lockerSiteId: SiteId): (r: Option<AvailableView>)
    reads lockers.Values
    ensures r.None? <==> lockerSiteId !in lockers
    ensures r.Some? ==> forall c :: c in r.value.compartments <==>
      c in lockers[lockerSiteId].compartments && c.isAvailable
    ensures r.Some? ==> r.value.compartments == AvailableOf(lockers[lockerSiteId].compartments)
    ensures r.Some? ==> r.value.lockerId == lockers[lockerSiteId].id && r.value.lockerName == lockers[lockerSiteId].name
  {
    if lockerSiteId !in lockers then None
    else
      var locker := lockers[lockerSiteId];
      Some(AvailableView(locker.id, locker.name, AvailableOf(locker.compartments)))
  }

  // ---------------------------------------------------------------------------------------
  // The fallback branch as written reads an undeclared `compartments`, so it throws.

  /** `getAvailableCompartment` as written: any call that reaches the fallback branch throws a
      ReferenceError, because the name `compartments` is not declared in that function. */
  function AllocationAsWritten(cs: seq<Compartment>, requested: string): (r: Result<nat, AllocError>)
    ensures r.Ok? ==> r.value < |cs| && Fits(cs[r.value], requested)
    ensures r.Err? <==> NoFit(cs, requested)
    ensures r.Err? ==> r.error == ReferenceError
  {
    match FindAvailable(cs, requested)
    case Some(i) => Ok(i)
    case None => Err(ReferenceError)
  }

  /** As written, the fallback never runs: with no exact match the call fails even when
      a fallback compartment is free; with an exact match both versions agree. */
  lemma AsWrittenNeverFallsBack(cs: seq<Compartment>, requested: string)
    ensures NoFit(cs, requested) ==> AllocationAsWritten(cs, requested) == Err(ReferenceError)
    ensures !NoFit(cs, requested) ==> AllocationAsWritten(cs, requested) == Ok(Allocation(cs, requested).value)
  {
    FindAvailableMeaning(cs, requested);
  }

  lemma UndefinedCompartmentsExample()
    ensures var cs := [Compartment("c1", "L01", Large, true)];
      AllocationAsWritten(cs, "Medium") == Err(ReferenceError) && Allocation(cs, "Medium") == Some(0)
  {
    var cs := [Compartment("c1", "L01", Large, true)];
    assert NoFit(cs, "Medium");
    assert FirstFit(cs, "Large", 0);
    AsWrittenNeverFallsBack(cs, "Medium");
    FallbackChoice(cs, "Medium");
  }

  // ---------------------------------------------------------------------------------------
  // The policy the fallback's comment names: the next bigger size, never a smaller one.

  /** The rank of a size name; -1 for a string that is no size. */
  function NameRank(name: string): int
  {
    match ParseSize(name)
    case Some(s) => Rank(s)
    case None => -1
  }

  /** Names of the sizes strictly larger than `s`, smallest first. */
  function LargerSizes(s: Size): (r: seq<string>)
    ensures forall t: Size :: SizeName(t) in r <==> Rank(s) < Rank(t)
    ensures forall a, b :: 0 <= a < b < |r| ==> NameRank(r[a]) < NameRank(r[b])
  {
    match s
    case Small => ["Medium", "Large", "Extra Large"]
    case Medium => ["Large", "Extra Large"]
    case Large => ["Extra Large"]
    case ExtraLarge => []
  }

  /** The exact size first, then each strictly larger size in ascending order. */
  function UpwardAllocation(cs: seq<Compartment>, requested: Size): (r: Option<nat>)
    ensures r.Some? ==> r.value < |cs| && cs[r.value].isAvailable
  {
    match FindAvailable(cs, SizeName(requested))
    case Some(i) => Some(i)
    case None => FirstFallback(cs, LargerSizes(requested))
  }

  lemma {:induction false} FirstFallbackNoneIff(cs: seq<Compartment>, sizes: seq<string>)
    ensures FirstFallback(cs, sizes).None? <==> forall k :: 0 <= k < |sizes| ==> NoFit(cs, sizes[k])
    decreases |sizes|
  {
    if |sizes| > 0 {
      FindAvailableMeaning(cs, sizes[0]);
      FirstFallbackNoneIff(cs, sizes[1..]);
      assert forall k :: 1 <= k < |sizes| ==> sizes[k] == sizes[1..][k - 1];
    }
  }

  /** Under the corrected policy a request is never served with a smaller compartment. */
  lemma UpwardNeverSmaller(cs: seq<Compartment>, requested: Size)
    requires UpwardAllocation(cs, requested).Some?
    ensures cs[UpwardAllocation(cs, requested).value].isAvailable
    ensures Rank(requested) <= Rank(cs[UpwardAllocation(cs, requested).value].size)
  {
    FindAvailableMeaning(cs, SizeName(requested));
    var i := UpwardAllocation(cs, requested).value;
    if FindAvailable(cs, SizeName(requested)).Some? {
      SizeOrder(cs[i].size, requested);
    }
  }

  /** Under the corrected policy the search fails exactly when no compartment of the requested
      size or larger is available. */
  lemma UpwardNoneIff(cs: seq<Compartment>, requested: Size)
    ensures UpwardAllocation(cs, requested).None? <==>
      forall j :: 0 <= j < |cs| && cs[j].isAvailable ==> Rank(cs[j].size) < Rank(requested)
  {
    FindAvailableMeaning(cs, SizeName(requested));
    FirstFallbackNoneIff(cs, LargerSizes(requested));
    if UpwardAllocation(cs, requested).None? {
      forall j | 0 <= j < |cs| && cs[j].isAvailable ensures Rank(cs[j].size) < Rank(requested) {
        SizeOrder(cs[j].size, requested);
      }
    } else {
      UpwardNeverSmaller(cs, requested);
    }
  }

  /** The fallback search stops at the first size of its list that has an available compartment. */
  lemma {:induction false} FirstFallbackPosition(cs: seq<Compartment>, sizes: seq<string>, k: nat)
    requires k < |sizes| && !NoFit(cs, sizes[k])
    ensures FirstFallback(cs, sizes).Some?
    ensures exists m :: 0 <= m <= k && SizeName(cs[FirstFallback(cs, sizes).value].size) == sizes[m]
    decreases k
  {
    FindAvailableMeaning(cs, sizes[0]);
    if FindAvailable(cs, sizes[0]).None? {
      assert k > 0;
      assert sizes[1..][k - 1] == sizes[k];
      FirstFallbackPosition(cs, sizes[1..], k - 1);
      var m :| 0 <= m <= k - 1 && SizeName(cs[FirstFallback(cs, sizes[1..]).value].size) == sizes[1..][m];
      assert sizes[m + 1] == sizes[1..][m];
    } else {
      var i := FindAvailable(cs, sizes[0]).value;
      assert Fits(cs[i], sizes[0]);
    }
  }

  /** Under the corrected policy, a request without an exact match gets the smallest larger
      size that has an available compartment: never Extra Large while a Large is free. */
  lemma UpwardPicksSmallestLarger(cs: seq<Compartment>, requested: Size, j: nat)
    requires NoFit(cs, SizeName(requested))
    requires j < |cs| && cs[j].isAvailable && Rank(requested) < Rank(cs[j].size)
    ensures UpwardAllocation(cs, requested).Some?
    ensures Rank(cs[UpwardAllocation(cs, requested).value].size) <= Rank(cs[j].size)
  {
    FindAvailableMeaning(cs, SizeName(requested));
    var larger := LargerSizes(requested);
    var t := cs[j].size;
    assert SizeName(t) in larger;
    var k :| 0 <= k < |larger| && larger[k] == SizeName(t);
    assert Fits(cs[j], larger[k]);
    FirstFallbackPosition(cs, larger, k);
    var i := UpwardAllocation(cs, requested).value;
    var m :| 0 <= m <= k && SizeName(cs[i].size) == larger[m];
    SizeNameRoundTrip(cs[i].size);
    SizeNameRoundTrip(t);
    assert NameRank(larger[m]) == Rank(cs[i].size);
    assert NameRank(larger[k]) == Rank(t);
  }
}
