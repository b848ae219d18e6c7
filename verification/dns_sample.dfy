/** A store and a change set that meet what the theorems on POST ask: a record `w.b` of one zone `b`, and an
    update that replaces its target. */
module DnsSample {
  import opened Wrappers
  import opened Text
  import opened DnsNames
  import opened DnsRecords
  import opened DnsStore
  import opened DnsAcceptance
  import opened DnsPlan
  import opened DnsTheorems

  const ZONES: seq<string> := ["b"]
  const RECORD := DomainRecord(0, "A", "w", "1", None, None, None, 3600)
  const STORE := Store(map["b" := [RECORD]], 1, 3600)
  const WAS := Endpoint("w.b", ["1"], "A", 0, [])
  const NOW := Endpoint("w.b", ["2"], "A", 0, [])
  const CHANGES := Changes([], [WAS], [NOW], [])
  const WALKS: seq<seq<string>> := [["2"]]
  const KEY: Key := ("w.b", "A")

  lemma Names()
    ensures NormalZones(ZONES)
    ensures Join("b", "w") == "w.b" && MapName("w.b", ZONES) == Some(("b", "w"))
  {
    TrimDotsNoOp("b");
    assert Lower("b") == "b" && Lower("w") == "w";
    assert "w" + "." + "b" == "w.b";
    NormalZonesAreSafe(ZONES);
    SplitOfJoin("b", "w", ZONES);
  }

  lemma StoreIsWellFormed()
    ensures WellFormed(ZONES, STORE)
  {
    Names();
    assert forall z, x :: In(STORE, z, x) ==> z == "b" && x == RECORD;
    assert WellPlaced(ZONES, "b", RECORD);
  }

  lemma OneItem()
    ensures Items(CHANGES, WALKS) == [UpdateItem(WAS, NOW, ["2"])]
  {
  }

  lemma ChangesAreGood()
    ensures GoodChanges(ZONES, CHANGES, WALKS)
  {
    OneItem();
    assert ToCreate(WAS, NOW) == {"2"};
    assert Enumerates(["2"], {"2"});
    assert CanonicalItem(UpdateItem(WAS, NOW, ["2"]));
  }

  lemma PlanIsComplete()
    ensures PostPlan(ZONES, STORE, CHANGES, WALKS).complete
  {
    Names();
    OneItem();
    assert forall e :: e in NeedingSnapshot(CHANGES) ==> e == WAS || e == NOW;
    assert HasZone(ZONES, WAS) && HasZone(ZONES, NOW);
    var item := UpdateItem(WAS, NOW, ["2"]);
    var snapshot := SnapshotOf(ZONES, STORE, CHANGES);
    assert EndpointNumbers(NOW).Some?;
    assert Block(ZONES, snapshot, item).Some?;
    assert [item][1..] == [];
    assert PlanOf(ZONES, snapshot, [item]).complete;
  }

  lemma StoredTargets()
    ensures KeyFor(ZONES, NOW) == Some(KEY) && Elements(WAS.targets) == Targets(STORE, KEY) == {"1"}
  {
    Names();
    assert In(STORE, "b", RECORD) && KeyOf("b", RECORD) == KEY;
    forall data ensures data in Targets(STORE, KEY) <==> data == "1" {
      TargetsStored(STORE, KEY, data);
      assert forall z, x :: In(STORE, z, x) ==> z == "b" && x == RECORD;
    }
  }

  lemma Premises()
    ensures WellFormed(ZONES, STORE) && GoodChanges(ZONES, CHANGES, WALKS) && Acceptable(ZONES, CHANGES)
  {
    StoreIsWellFormed();
    ChangesAreGood();
    PlanIsComplete();
    CompleteExact(ZONES, STORE, CHANGES, WALKS);
  }

  /** On the sample, the theorems say that the update replaces the target. */
  lemma UpdateReplacesTarget()
    ensures Targets(Run(STORE, PostPlan(ZONES, STORE, CHANGES, WALKS).ops), KEY) == {"2"}
  {
    Premises();
    StoredTargets();
    PostUpdates(ZONES, STORE, CHANGES, WALKS, 0, KEY);
    assert Elements(NOW.targets) == {"2"};
  }
}
