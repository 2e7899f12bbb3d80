/** The locker-site document: compartment sizes, compartments with their availability
    flag, and the duplicate-compartment-number check that runs before every save. */
module LockerModel {
  import opened Common

  /** The four compartment sizes, smallest first. */
  datatype Size = Small | Medium | Large | ExtraLarge

  /** The schema's size enumeration, in its declared (ascending) order. */
  const SizeEnums: seq<Size> := [Small, Medium, Large, ExtraLarge]

  /** The string a size is stored and compared as. */
  function SizeName(s: Size): string
  {
    match s
    case Small => "Small"
    case Medium => "Medium"
    case Large => "Large"
    case ExtraLarge => "Extra Large"
  }

  /** The schema's enum validation: a string is a size only if it is one of the four names. */
  function ParseSize(name: string): (r: Option<Size>)
    ensures r.Some? ==> SizeName(r.value) == name
    ensures r.None? ==> forall s: Size :: SizeName(s) != name
  {
    if name == "Small" then Some(Small)
    else if name == "Medium" then Some(Medium)
    else if name == "Large" then Some(Large)
    else if name == "Extra Large" then Some(ExtraLarge)
    else None
  }

  /** Position of a size in the enumeration; the order of compartment sizes. */
  function Rank(s: Size): (r: nat)
    ensures r < |SizeEnums| && SizeEnums[r] == s
  {
    match s
    case Small => 0
    case Medium => 1
    case Large => 2
    case ExtraLarge => 3
  }

  lemma SizeNameRoundTrip(s: Size)
    ensures ParseSize(SizeName(s)) == Some(s)
  {
  }

  /** Sizes are told apart by their names and by their ranks, and the ranks put them in
      the order Small < Medium < Large < Extra Large. */
  lemma SizeOrder(a: Size, b: Size)
    ensures SizeName(a) == SizeName(b) <==> a == b
    ensures Rank(a) == Rank(b) <==> a == b
    ensures Rank(Small) < Rank(Medium) < Rank(Large) < Rank(ExtraLarge)
  {
  }

  type SiteId = string
  type CompartmentId = string

  /** One compartment sub-document; `id` is its persistence id, compared as a string. */
  datatype Compartment = Compartment(id: CompartmentId, compartmentNumber: string, size: Size, isAvailable: bool)

  /** A compartment as the schema creates it when `isAvailable` is not given. */
  function NewCompartment(id: CompartmentId, compartmentNumber: string, size: Size): (c: Compartment)
    ensures c.isAvailable
    ensures c.id == id && c.compartmentNumber == compartmentNumber && c.size == size
  {
    Compartment(id, compartmentNumber, size, true)
  }

  /** The compartment numbers used in `cs`. */
  function NumbersOf(cs: seq<Compartment>): set<string>
  {
    set i | 0 <= i < |cs| :: cs[i].compartmentNumber
  }

  /** No two compartments of the site share a compartment number. */
  predicate DistinctNumbers(cs: seq<Compartment>)
  {
    forall i, j :: 0 <= i < j < |cs| ==> cs[i].compartmentNumber != cs[j].compartmentNumber
  }

  /** Position `k` is the first one, in array order, whose number repeats an earlier number. */
  predicate FirstRepeatAt(cs: seq<Compartment>, k: int)
  {
    0 <= k < |cs| && cs[k].compartmentNumber in NumbersOf(cs[..k]) && DistinctNumbers(cs[..k])
  }

  datatype SaveError = DuplicateCompartmentNumber(number: string)

  /** The message the pre-save hook rejects the save with. */
  function SaveErrorMessage(e: SaveError): string
  {
    "Duplicate compartment number '" + e.number + "' within the same locker site"
  }

  lemma NumbersOfSnoc(cs: seq<Compartment>, i: nat)
    requires i < |cs|
    ensures NumbersOf(cs[..i + 1]) == NumbersOf(cs[..i]) + {cs[i].compartmentNumber}
  {
    var a, b := cs[..i + 1], cs[..i];
    assert forall k :: 0 <= k < i ==> a[k] == b[k];
    assert a[i] == cs[i];
    forall n | n in NumbersOf(a) ensures n in NumbersOf(b) + {cs[i].compartmentNumber} {
      var k :| 0 <= k < |a| && a[k].compartmentNumber == n;
      if k < i { assert b[k].compartmentNumber == n; }
    }
    forall n | n in NumbersOf(b) + {cs[i].compartmentNumber} ensures n in NumbersOf(a) {
      if n in NumbersOf(b) {
        var k :| 0 <= k < |b| && b[k].compartmentNumber == n;
        assert a[k].compartmentNumber == n;
      } else {
        assert a[i].compartmentNumber == n;
      }
    }
  }

  /** The pre-save hook: walks the compartments with a set of the numbers seen so far and
      stops at the first number already in it. */
  method CheckCompartmentNumbers(compartments: seq<Compartment>) returns (r: Outcome<SaveError>)
    ensures r.Pass? <==> DistinctNumbers(compartments)
    ensures r.Fail? ==> exists k :: FirstRepeatAt(compartments, k) && r.error.number == compartments[k].compartmentNumber
  {
    var seen: set<string> := {};
    var i := 0;
    while i < |compartments|
      invariant 0 <= i <= |compartments|
      invariant seen == NumbersOf(compartments[..i])
      invariant DistinctNumbers(compartments[..i])
    {
      var compartment := compartments[i];
      if compartment.compartmentNumber in seen {
        assert FirstRepeatAt(compartments, i);
        var k :| 0 <= k < i && compartments[..i][k].compartmentNumber == compartment.compartmentNumber;
        assert compartments[k].compartmentNumber == compartments[i].compartmentNumber;
        return Fail(DuplicateCompartmentNumber(compartment.compartmentNumber));
      }
      NumbersOfSnoc(compartments, i);
      assert forall k :: 0 <= k < i ==> compartments[..i + 1][k] == compartments[..i][k];
      seen := seen + {compartment.compartmentNumber};
      i := i + 1;
    }
    assert compartments[..i] == compartments;
    return Pass;
  }

  /** `compartments.find(c => c._id.toString() === compartmentId)`, as a position. */
  function CompartmentIndex(cs: seq<Compartment>, compartmentId: CompartmentId): (r: Option<nat>)
    ensures r.Some? ==> r.value < |cs| && cs[r.value].id == compartmentId
    ensures r.Some? ==> forall j :: 0 <= j < r.value ==> cs[j].id != compartmentId
    ensures r.None? <==> forall j :: 0 <= j < |cs| ==> cs[j].id != compartmentId
  {
    FirstIndex(cs, (c: Compartment) => c.id == compartmentId)
  }

  /** The compartments after `compartment.isAvailable = true` on the one at `i`. */
  function Released(cs: seq<Compartment>, i: nat): (r: seq<Compartment>)
    requires i < |cs|
    ensures |r| == |cs| && r[i].isAvailable
    ensures forall j :: 0 <= j < |cs| && j != i ==> r[j] == cs[j]
  {
    cs[i := cs[i].(isAvailable := true)]
  }

  /** Releasing changes the availability of exactly one compartment, is idempotent, and
      keeps the numbers, so it cannot make the duplicate check pass or fail. */
  lemma ReleaseFrame(cs: seq<Compartment>, i: nat)
    requires i < |cs|
    ensures |Released(cs, i)| == |cs| && Released(cs, i)[i].isAvailable
    ensures Released(cs, i)[i].id == cs[i].id && Released(cs, i)[i].compartmentNumber == cs[i].compartmentNumber
    ensures Released(cs, i)[i].size == cs[i].size
    ensures forall j :: 0 <= j < |cs| && j != i ==> Released(cs, i)[j] == cs[j]
    ensures Released(Released(cs, i), i) == Released(cs, i)
    ensures cs[i].isAvailable ==> Released(cs, i) == cs
    ensures NumbersOf(Released(cs, i)) == NumbersOf(cs)
    ensures DistinctNumbers(Released(cs, i)) <==> DistinctNumbers(cs)
  {
    var r := Released(cs, i);
    assert forall j :: 0 <= j < |cs| ==> r[j].compartmentNumber == cs[j].compartmentNumber;
    forall n | n in NumbersOf(r) ensures n in NumbersOf(cs) {
      var k :| 0 <= k < |r| && r[k].compartmentNumber == n;
      assert cs[k].compartmentNumber == n;
    }
    forall n | n in NumbersOf(cs) ensures n in NumbersOf(r) {
      var k :| 0 <= k < |cs| && cs[k].compartmentNumber == n;
      assert r[k].compartmentNumber == n;
    }
  }

  /** A locker-site document. The object stands for the stored document: a save that the
      pre-save hook rejects leaves it as it was. */
  class LockerSite {
    const id: SiteId
    var name: string
    var compartments: seq<Compartment>

    constructor (id: SiteId, name: string, compartments: seq<Compartment>)
      ensures this.id == id && this.name == name && this.compartments == compartments
    {
      this.id := id;
      this.name := name;
      this.compartments := compartments;
    }

    /** `compartment.isAvailable = true; await locker.save()` on the compartment at `i`:
        the save runs the duplicate-number check and keeps the change only if it passes. */
    method ReleaseAndSave(i: nat) returns (r: Outcome<SaveError>)
      requires i < |compartments|
      modifies this
      ensures name == old(name)
      ensures r.Pass? <==> DistinctNumbers(old(compartments))
      ensures compartments == if r.Pass? then Released(old(compartments), i) else old(compartments)
    {
      var updated := Released(compartments, i);
      ReleaseFrame(compartments, i);
      r := CheckCompartmentNumbers(updated);
      if r.Pass? {
        compartments := updated;
      }
    }
  }
}
