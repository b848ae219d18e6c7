/** Zone selection and the split of a full name into zone and relative record name
    (`normalize_dns_name`, `record_dns_name`, `map_endpoint_to_domain`).
 */
module DnsNames {
  import opened Wrappers
  import opened Text

  function TrimDots(s: string): (r: string)
    ensures r <= s
    ensures r != "" ==> r[|r| - 1] != '.'
  {
    if s != "" && s[|s| - 1] == '.' then TrimDots(s[..|s| - 1]) else s
  }

  /** `normalize_dns_name` */
  function Normalize(name: string): string {
    Lower(TrimDots(name))
  }

  predicate IsNormal(name: string) {
    Normalize(name) == name
  }

  /** Exactly the trailing dots are trimmed, and the rest is put in lower case. */
  lemma {:induction false} NormalizeExact(name: string) returns (k: nat)
    ensures k <= |name| && Normalize(name) == Lower(name[..k])
    ensures k > 0 ==> name[k - 1] != '.'
    ensures forall i :: k <= i < |name| ==> name[i] == '.'
  {
    k := |name|;
    if name != "" && name[|name| - 1] == '.' {
      k := NormalizeExact(name[..|name| - 1]);
      assert name[..|name| - 1][..k] == name[..k];
    } else {
      assert name[..k] == name;
    }
  }

  /** `record_dns_name` */
  function Join(zone: string, relative: string): string {
    if relative == "@" then zone else relative + "." + zone
  }

  /** The test of the selection loop, on normalised names. */
  predicate Matches(name: string, zone: string) {
    name == zone || EndsWith(name, "." + zone)
  }

  /** The zone the loop has chosen after looking at all of `zones`: a match replaces the choice
      when its normalised length exceeds the *stored* length of the current choice. */
  function PickZone(name: string, zones: seq<string>): (r: Option<nat>)
    ensures r.Some? ==> r.value < |zones| && Matches(name, Normalize(zones[r.value]))
    ensures r.None? ==> forall i :: 0 <= i < |zones| ==> !Matches(name, Normalize(zones[i]))
  {
    if zones == [] then None
    else
      var last := |zones| - 1;
      var best := PickZone(name, zones[..last]);
      var candidate := Normalize(zones[last]);
      if Matches(name, candidate) && (best.None? || |candidate| > |zones[best.value]|) then Some(last)
      else best
  }

  /** The relative name of a normalised `name` under a normalised `zone` that matches it. */
  function Relative(name: string, zone: string): string
    requires Matches(name, zone)
  {
    if name == zone then "@" else name[..|name| - |zone| - 1]
  }

  /** What `map_endpoint_to_domain` answers for an endpoint's DNS name. */
  function MapName(dnsName: string, zones: seq<string>): (r: Option<(string, string)>) {
    var name := Normalize(dnsName);
    match PickZone(name, zones)
    case None => None
    case Some(i) => Some((zones[i], Relative(name, Normalize(zones[i]))))
  }

  /** `map_endpoint_to_domain` with its loop. The unchecked `strip_suffix` is `Relative`, whose
      precondition is met on every input. */
  method MapEndpointToDomain(dnsName: string, domains: seq<string>) returns (r: Option<(string, string)>)
    ensures r == MapName(dnsName, domains)
  {
    var name := Normalize(dnsName);
    var best: Option<nat> := None;
    for i := 0 to |domains|
      invariant best == PickZone(name, domains[..i])
    {
      assert domains[..i + 1][..i] == domains[..i];
      var candidate := Normalize(domains[i]);
      if (name == candidate || EndsWith(name, "." + candidate))
         && (best.None? || |candidate| > |domains[best.value]|) {
        best := Some(i);
      }
    }
    assert domains[..|domains|] == domains;
    if best.None? {
      return None;
    }
    var normalized := Normalize(domains[best.value]);
    var relative := Relative(name, normalized);
    return Some((domains[best.value], relative));
  }

  // ---------- facts about matching ----------

  lemma {:induction false} TrimDotsNoOp(s: string)
    requires s == "" || s[|s| - 1] != '.'
    ensures TrimDots(s) == s
  {
  }

  lemma NormalizeIdempotent(name: string)
    ensures IsNormal(Normalize(name))
  {
    var t := TrimDots(name);
    var n := Lower(t);
    if n != "" {
      assert n[|n| - 1] == LowerChar(t[|t| - 1]);
    }
    TrimDotsNoOp(n);
    LowerIdempotent(t);
  }

  lemma LowerIdempotent(s: string)
    ensures Lower(Lower(s)) == Lower(s)
  {
  }

  /** Two zones that match one name: the longer extends the shorter at a label boundary. */
  lemma MatchesNest(name: string, short: string, long: string)
    requires Matches(name, short) && Matches(name, long)
    ensures |short| < |long| ==> EndsWith(long, "." + short)
    ensures |short| == |long| ==> short == long
  {
    if |short| < |long| {
      if name != long {
        assert name[|name| - |long| - 1..] == "." + long;
        assert long == name[|name| - |long|..];
        assert name[|name| - |short| - 1..] == "." + short;
        assert long[|long| - |short| - 1..] == name[|name| - |short| - 1..];
      }
    } else if |short| == |long| && name != short && name != long {
      assert name[|name| - |short| - 1..] == "." + short == "." + long;
      assert short == ("." + short)[1..] && long == ("." + long)[1..];
    }
  }

  lemma MatchesTransitive(name: string, mid: string, zone: string)
    requires Matches(name, mid) && Matches(mid, zone)
    ensures Matches(name, zone)
  {
    if name != mid && mid != zone {
      assert name[|name| - |mid| - 1..] == "." + mid;
      assert mid == ("." + mid)[1..] == name[|name| - |mid|..];
      assert mid[|mid| - |zone| - 1..] == name[|name| - |zone| - 1..];
    }
  }

  // ---------- the choice is the most specific match ----------

  /** Zone `i` is the first of the matching zones of greatest normalised length. */
  ghost predicate MostSpecific(name: string, zones: seq<string>, i: nat) {
    && i < |zones|
    && Matches(name, Normalize(zones[i]))
    && (forall j :: 0 <= j < |zones| && Matches(name, Normalize(zones[j])) ==>
          |Normalize(zones[j])| <= |Normalize(zones[i])|)
    && (forall j :: 0 <= j < i && Matches(name, Normalize(zones[j])) ==>
          |Normalize(zones[j])| < |Normalize(zones[i])|)
  }

  /** A zone list on which comparing with the stored length does no harm: whenever a zone is
      listed after the best match of its own name, and is longer, then it is longer than
      that match as stored, trailing dots included. */
  ghost predicate SafeOrder(zones: seq<string>) {
    forall i, j :: 0 <= i < j < |zones|
      && MostSpecific(Normalize(zones[j]), zones[..j], i)
      && |Normalize(zones[i])| < |Normalize(zones[j])|
      ==> |zones[i]| < |Normalize(zones[j])|
  }

  ghost predicate ChoosesMostSpecific(zones: seq<string>) {
    forall name: string :: IsNormal(name) ==> ChoosesMostSpecificFor(name, zones)
  }

  ghost predicate ChoosesMostSpecificFor(name: string, zones: seq<string>) {
    PickZone(name, zones).Some? ==> MostSpecific(name, zones, PickZone(name, zones).value)
  }

  lemma NormalizeShortens(s: string)
    ensures |Normalize(s)| <= |s|
  {
  }

  lemma SafeOrderPrefix(zones: seq<string>, n: nat)
    requires SafeOrder(zones) && n <= |zones|
    ensures SafeOrder(zones[..n])
  {
    forall i, j | 0 <= i < j < n
      && MostSpecific(Normalize(zones[..n][j]), zones[..n][..j], i)
      && |Normalize(zones[i])| < |Normalize(zones[j])|
      ensures |zones[i]| < |Normalize(zones[j])|
    {
      assert zones[..n][..j] == zones[..j];
    }
  }

  lemma {:induction false} SafeOrderSuffices(name: string, zones: seq<string>)
    requires SafeOrder(zones)
    ensures ChoosesMostSpecificFor(name, zones)
    decreases |zones|
  {
    if zones != [] {
      var last := |zones| - 1;
      SafeOrderPrefix(zones, last);
      SafeOrderSuffices(name, zones[..last]);
      SafeStep(name, zones, last);
    }
  }

  lemma SafeStep(name: string, zones: seq<string>, last: nat)
    requires SafeOrder(zones) && last + 1 == |zones|
    requires ChoosesMostSpecificFor(name, zones[..last])
    ensures ChoosesMostSpecificFor(name, zones)
  {
    var front := zones[..last];
    var best := PickZone(name, front);
    var candidate := Normalize(zones[last]);
    if best.Some? && Matches(name, candidate) {
      var i := best.value;
      assert front[i] == zones[i];
      NormalizeShortens(zones[i]);
      if |candidate| > |Normalize(zones[i])| {
        BestOfLongerName(name, candidate, front, i);
        assert |zones[i]| < |candidate|;
      }
    }
    if Matches(name, candidate) && (best.None? || |candidate| > |zones[best.value]|) {
      LastIsBest(name, zones, last, best);
    } else if best.Some? {
      BestRemains(name, zones, last, best.value);
    }
  }

  lemma BestRemains(name: string, zones: seq<string>, last: nat, i: nat)
    requires last + 1 == |zones| && MostSpecific(name, zones[..last], i)
    requires Matches(name, Normalize(zones[last])) ==> |Normalize(zones[last])| <= |Normalize(zones[i])|
    ensures MostSpecific(name, zones, i)
  {
    var front := zones[..last];
    forall j | 0 <= j < |zones| && Matches(name, Normalize(zones[j]))
      ensures |Normalize(zones[j])| <= |Normalize(zones[i])|
    {
      assert j < last ==> front[j] == zones[j];
    }
    forall j | 0 <= j < i && Matches(name, Normalize(zones[j]))
      ensures |Normalize(zones[j])| < |Normalize(zones[i])|
    {
      assert front[j] == zones[j];
    }
  }

  lemma LastIsBest(name: string, zones: seq<string>, last: nat, best: Option<nat>)
    requires last + 1 == |zones| && Matches(name, Normalize(zones[last]))
    requires best.Some? ==> MostSpecific(name, zones[..last], best.value)
                            && |Normalize(zones[last])| > |Normalize(zones[best.value])|
    requires best.None? ==> forall i :: 0 <= i < last ==> !Matches(name, Normalize(zones[..last][i]))
    ensures MostSpecific(name, zones, last)
  {
    forall j | 0 <= j < last && Matches(name, Normalize(zones[j]))
      ensures |Normalize(zones[j])| < |Normalize(zones[last])|
    {
      EarlierIsShorter(name, zones, last, best, j);
    }
  }

  lemma EarlierIsShorter(name: string, zones: seq<string>, last: nat, best: Option<nat>, j: nat)
    requires j < last < |zones| && Matches(name, Normalize(zones[j]))
    requires best.Some? ==> MostSpecific(name, zones[..last], best.value)
                            && |Normalize(zones[last])| > |Normalize(zones[best.value])|
    requires best.None? ==> forall i :: 0 <= i < last ==> !Matches(name, Normalize(zones[..last][i]))
    ensures |Normalize(zones[j])| < |Normalize(zones[last])|
  {
    var front := zones[..last];
    assert front[j] == zones[j];
  }

  /** The best match of a name is also the best match of any longer zone that matches it. */
  lemma BestOfLongerName(name: string, long: string, zones: seq<string>, i: nat)
    requires MostSpecific(name, zones, i)
    requires Matches(name, long) && |long| > |Normalize(zones[i])|
    ensures MostSpecific(long, zones, i)
  {
    MatchesNest(name, Normalize(zones[i]), long);
    forall j | 0 <= j < |zones| && Matches(long, Normalize(zones[j]))
      ensures Matches(name, Normalize(zones[j]))
    {
      MatchesTransitive(name, long, Normalize(zones[j]));
    }
  }

  /** Once chosen, a zone stays chosen while no later match is longer than it as stored. */
  lemma {:induction false} ChoiceStays(name: string, zones: seq<string>, m: nat, i: nat)
    requires m <= |zones| && PickZone(name, zones[..m]) == Some(i)
    requires forall k :: m <= k < |zones| && Matches(name, Normalize(zones[k])) ==>
                           |Normalize(zones[k])| <= |zones[i]|
    ensures PickZone(name, zones) == Some(i)
    decreases |zones|
  {
    if m == |zones| {
      assert zones[..m] == zones;
    } else {
      var front := zones[..|zones| - 1];
      assert front[..m] == zones[..m];
      ChoiceStays(name, front, m, i);
    }
  }

  lemma {:induction false} SafeOrderNeeded(zones: seq<string>, n: nat)
    requires ChoosesMostSpecific(zones) && n <= |zones|
    ensures SafeOrder(zones[..n])
  {
    if n > 0 {
      var last := n - 1;
      SafeOrderNeeded(zones, last);
      var prefix := zones[..n];
      forall i, j | 0 <= i < j < n
        && MostSpecific(Normalize(prefix[j]), prefix[..j], i)
        && |Normalize(prefix[i])| < |Normalize(prefix[j])|
        ensures |prefix[i]| < |Normalize(prefix[j])|
      {
        assert prefix[..j] == zones[..j];
        if j < last {
          assert zones[..last][..j] == zones[..j];
        } else if |zones[i]| >= |Normalize(zones[last])| {
          LongStoredZoneWins(zones, i, last);
        }
      }
    }
  }

  lemma LongStoredZoneWins(zones: seq<string>, i: nat, j: nat)
    requires i < j < |zones| && SafeOrder(zones[..j])
    requires MostSpecific(Normalize(zones[j]), zones[..j], i)
    requires |Normalize(zones[i])| < |Normalize(zones[j])| <= |zones[i]|
    ensures !ChoosesMostSpecific(zones)
  {
    var name := Normalize(zones[j]);
    NormalizeIdempotent(zones[j]);
    SafeOrderSuffices(name, zones[..j]);
    MostSpecificUnique(name, zones[..j], i);
    ChoiceStays(name, zones, j, i);
    assert !ChoosesMostSpecificFor(name, zones);
  }

  lemma MostSpecificUnique(name: string, zones: seq<string>, i: nat)
    requires MostSpecific(name, zones, i) && ChoosesMostSpecificFor(name, zones)
    ensures PickZone(name, zones) == Some(i)
  {
    var b := PickZone(name, zones).value;
    assert Matches(name, Normalize(zones[b])) && Matches(name, Normalize(zones[i]));
  }

  /** Exactly when the loop always picks the most specific zone, the first one on ties. */
  lemma ZoneChoiceExact(zones: seq<string>)
    ensures ChoosesMostSpecific(zones) <==> SafeOrder(zones)
  {
    if SafeOrder(zones) {
      forall name: string | IsNormal(name) ensures ChoosesMostSpecificFor(name, zones) {
        SafeOrderSuffices(name, zones);
      }
    }
    if ChoosesMostSpecific(zones) {
      SafeOrderNeeded(zones, |zones|);
      assert zones[..|zones|] == zones;
    }
  }

  /** A zone as section 3.1 of RFC 1034 allows it: the first label is not empty, and at most
      one trailing dot. */
  predicate ProperZone(zone: string) {
    var t := TrimDots(zone);
    t != "" && t[0] != '.' && |zone| <= |t| + 1
  }

  lemma ProperZonesAreSafe(zones: seq<string>)
    requires forall i :: 0 <= i < |zones| ==> ProperZone(zones[i])
    ensures ChoosesMostSpecific(zones)
  {
    forall i, j | 0 <= i < j < |zones|
      && MostSpecific(Normalize(zones[j]), zones[..j], i)
      && |Normalize(zones[i])| < |Normalize(zones[j])|
      ensures |zones[i]| < |Normalize(zones[j])|
    {
      assert Matches(Normalize(zones[j]), Normalize(zones[i]));
      ProperZonesNest(zones[i], zones[j]);
    }
    ZoneChoiceExact(zones);
  }

  lemma ProperZonesNest(short: string, long: string)
    requires ProperZone(short) && ProperZone(long)
    requires Matches(Normalize(long), Normalize(short)) && |Normalize(short)| < |Normalize(long)|
    ensures |short| < |Normalize(long)|
  {
    var l, s := Normalize(long), Normalize(short);
    assert l[0] == LowerChar(TrimDots(long)[0]) != '.';
    assert l[|l| - |s| - 1] == ("." + s)[0];
  }

  /** Stored with two trailing dots, a parent zone shadows a one-letter child. */
  lemma TwoTrailingDotsShadow()
    ensures PickZone("w.a.b", ["b..", "a.b"]) == Some(0)
    ensures !ChoosesMostSpecific(["b..", "a.b"])
  {
    var zones := ["b..", "a.b"];
    assert TrimDots("b..") == "b" by {
      assert "b.."[..2] == "b." && "b."[..1] == "b";
    }
    assert Lower("b") == "b" && Lower("a.b") == "a.b" && Lower("w.a.b") == "w.a.b";
    TrimDotsNoOp("a.b");
    TrimDotsNoOp("w.a.b");
    assert Normalize(zones[0]) == "b" && Normalize(zones[1]) == "a.b";
    assert IsNormal("w.a.b");
    assert "w.a.b"[5 - 2..] == "." + "b" && "w.a.b"[5 - 4..] == "." + "a.b";
    assert zones[..1] == ["b.."] && zones[..1][..0] == [];
    assert PickZone("w.a.b", zones[..1]) == Some(0);
    assert PickZone("w.a.b", zones) == Some(0);
    assert !ChoosesMostSpecificFor("w.a.b", zones);
  }

  // ---------- split and join ----------

  /** Joining what a name was split into gives the normalised name back exactly when the zone is
      stored normalised and the relative part was not literally `@`. */
  lemma JoinOfSplit(dnsName: string, zones: seq<string>)
    requires MapName(dnsName, zones).Some?
    ensures var (zone, relative) := MapName(dnsName, zones).value;
      (Join(zone, relative) == Normalize(dnsName))
      <==> (IsNormal(zone) && Normalize(dnsName) != "@." + Normalize(zone))
  {
    var (zone, relative) := MapName(dnsName, zones).value;
    NormalizeIdempotent(dnsName);
    NormalizeShortens(zone);
    JoinOfRelative(Normalize(dnsName), zone, Normalize(zone));
  }

  /** A name that is literally `@` under its zone is split as the zone itself, and lost. */
  lemma LiteralAtIsLost()
    ensures MapName("@.b", ["b"]) == Some(("b", "@")) && Join("b", "@") == "b" && Normalize("@.b") == "@.b"
  {
    TrimDotsNoOp("@.b");
    TrimDotsNoOp("b");
    assert Lower("@.b") == "@.b" && Lower("b") == "b";
    assert "@.b"[1..] == "." + "b" && "@.b"[..1] == "@";
    assert PickZone("@.b", ["b"]) == Some(0);
  }

  lemma JoinOfRelative(name: string, stored: string, zone: string)
    requires Matches(name, zone) && |zone| <= |stored| && (stored == name ==> zone == name)
    ensures (Join(stored, Relative(name, zone)) == name) <==> (stored == zone && name != "@." + zone)
  {
    var relative := Relative(name, zone);
    if name == zone {
      assert |name| < |"@." + zone|;
    } else {
      assert name == relative + "." + zone by {
        assert name == name[..|name| - |zone| - 1] + name[|name| - |zone| - 1..];
      }
      if relative == "@" {
        assert name == "@." + zone;
      } else {
        RelativeOfJoined(zone, "@");
        assert "@" + "." + zone == "@." + zone;
        SameTail(relative + ".", stored, zone);
      }
    }
  }

  lemma SameTail(front: string, a: string, b: string)
    ensures front + a == front + b <==> a == b
  {
    assert (front + a)[|front|..] == a && (front + b)[|front|..] == b;
  }

  /** Zones as they may be stored, no two the same once normalised. */
  ghost predicate DistinctForms(zones: seq<string>) {
    forall i, j :: 0 <= i < j < |zones| ==> Normalize(zones[i]) != Normalize(zones[j])
  }

  /** Normalised zones, no two alike. */
  ghost predicate NormalZones(zones: seq<string>) {
    && (forall i :: 0 <= i < |zones| ==> IsNormal(zones[i]))
    && (forall i, j :: 0 <= i < j < |zones| ==> zones[i] != zones[j])
  }

  lemma NormalZonesAreSafe(zones: seq<string>)
    requires NormalZones(zones)
    ensures SafeOrder(zones) && DistinctForms(zones)
  {
  }

  /** Splitting a joined pair gives the pair back exactly when the relative part is `@`, or it is
      lower-case under a non-root zone and no deeper zone claims the full name. Zones need not be
      stored normalised. */
  lemma SplitOfJoin(zone: string, relative: string, zones: seq<string>)
    requires SafeOrder(zones) && DistinctForms(zones) && zone in zones
    ensures (MapName(Join(zone, relative), zones) == Some((zone, relative)))
      <==> (relative == "@"
            || (Normalize(zone) != "" && Lower(relative) == relative
                && forall z :: z in zones && Matches(relative + "." + Normalize(zone), Normalize(z)) ==>
                     |Normalize(z)| <= |Normalize(zone)|))
  {
    var normal := Normalize(zone);
    NormalizeIdempotent(zone);
    if relative == "@" {
      SplitAtMostSpecific(normal, zone, zones);
    } else if normal == "" {
      RootZoneSplits(zone, relative, zones);
    } else {
      var full := relative + "." + zone;
      var name := Lower(relative) + "." + normal;
      NormalizeJoined(zone, relative);
      RelativeOfJoined(normal, Lower(relative));
      NormalizeIdempotent(full);
      SplitAtMostSpecific(name, zone, zones);
      assert MapName(full, zones) == MapName(name, zones);
      RelativeIsLower(name, Normalize(zones[PickZone(name, zones).value]));
    }
  }

  lemma {:induction false} TrimDotsAppend(a: string, b: string)
    requires TrimDots(b) != ""
    ensures TrimDots(a + b) == a + TrimDots(b)
    decreases |b|
  {
    assert (a + b)[|a + b| - 1] == b[|b| - 1];
    if b[|b| - 1] == '.' {
      assert (a + b)[..|a + b| - 1] == a + b[..|b| - 1];
      TrimDotsAppend(a, b[..|b| - 1]);
    }
  }

  lemma NormalizeJoined(zone: string, relative: string)
    requires Normalize(zone) != ""
    ensures Normalize(relative + "." + zone) == Lower(relative) + "." + Normalize(zone)
  {
    TrimDotsAppend(relative + ".", zone);
    assert Lower(relative + "." + TrimDots(zone)) == Lower(relative) + "." + Normalize(zone);
  }

  lemma RelativeOfJoined(zone: string, relative: string)
    ensures Matches(relative + "." + zone, zone)
    ensures Relative(relative + "." + zone, zone) == relative
  {
    var name := relative + "." + zone;
    assert name[|name| - |zone| - 1..] == "." + zone;
    assert name[..|name| - |zone| - 1] == relative;
  }

  /** A lower-case name splits into a lower-case relative part. */
  lemma RelativeIsLower(name: string, zone: string)
    requires IsNormal(name) && Matches(name, zone)
    ensures Lower(Relative(name, zone)) == Relative(name, zone)
  {
    var relative := Relative(name, zone);
    NormalHasNoTrailingDot(name);
    assert relative != "@" ==> relative <= name;
    forall i | 0 <= i < |relative| ensures LowerChar(relative[i]) == relative[i] {
      assert relative != "@" ==> Lower(name)[i] == name[i] == relative[i];
    }
  }

  lemma NormalHasNoTrailingDot(zone: string)
    requires IsNormal(zone)
    ensures TrimDots(zone) == zone && Lower(zone) == zone
  {
    assert |TrimDots(zone)| == |zone|;
    assert TrimDots(zone) == zone;
  }

  /** The root zone matches no name but the empty one. */
  lemma RootMatchesOnlyRoot(name: string)
    requires IsNormal(name)
    ensures Matches(name, "") ==> name == ""
  {
    NormalHasNoTrailingDot(name);
    assert name != "" ==> name[|name| - 1..] == [name[|name| - 1]];
    assert "." + "" == ".";
  }

  /** Under a root zone, however it is stored, only `@` is ever found. */
  lemma RootZoneSplits(zone: string, relative: string, zones: seq<string>)
    requires relative != "@" && Normalize(zone) == ""
    ensures MapName(relative + "." + zone, zones) != Some((zone, relative))
  {
    var name := Normalize(relative + "." + zone);
    NormalizeIdempotent(relative + "." + zone);
    RootMatchesOnlyRoot(name);
  }

  /** With safely ordered zones of distinct forms, a matching zone of greatest length is the one chosen. */
  lemma SplitAtMostSpecific(name: string, zone: string, zones: seq<string>)
    requires SafeOrder(zones) && DistinctForms(zones) && zone in zones && IsNormal(name)
    requires Matches(name, Normalize(zone))
    ensures (MapName(name, zones) == Some((zone, Relative(name, Normalize(zone)))))
      <==> (forall z :: z in zones && Matches(name, Normalize(z)) ==> |Normalize(z)| <= |Normalize(zone)|)
  {
    SafeOrderSuffices(name, zones);
    var i :| 0 <= i < |zones| && zones[i] == zone;
    var b := PickZone(name, zones);
    assert b.Some?;
    var best := Normalize(zones[b.value]);
    if forall z :: z in zones && Matches(name, Normalize(z)) ==> |Normalize(z)| <= |Normalize(zone)| {
      assert zones[b.value] in zones;
      MatchesNest(name, best, Normalize(zone));
    }
    if MapName(name, zones) == Some((zone, Relative(name, Normalize(zone)))) {
      forall z | z in zones && Matches(name, Normalize(z)) ensures |Normalize(z)| <= |Normalize(zone)| {
        var k :| 0 <= k < |zones| && zones[k] == z;
      }
    }
  }

  /** The best match of a name is also the best match of its own normalised name. */
  lemma BestOfItself(name: string, zones: seq<string>, i: nat)
    requires MostSpecific(name, zones, i)
    ensures MostSpecific(Normalize(zones[i]), zones, i)
  {
    var zone := Normalize(zones[i]);
    forall j | 0 <= j < |zones| && Matches(zone, Normalize(zones[j])) ensures Matches(name, Normalize(zones[j])) {
      MatchesTransitive(name, zone, Normalize(zones[j]));
    }
  }

  /** Splitting is stable: what a name was split into, joined, splits the same way again, for zones in any
      order and form; only for a name that is literally `@` under its zone must the order be safe. */
  lemma SplitStable(dnsName: string, zones: seq<string>)
    requires MapName(dnsName, zones).Some?
    requires SafeOrder(zones) || Normalize(dnsName) != "@." + Normalize(MapName(dnsName, zones).value.0)
    ensures var (zone, relative) := MapName(dnsName, zones).value;
      zone in zones && MapName(Join(zone, relative), zones) == Some((zone, relative))
  {
    var name := Normalize(dnsName);
    var (zone, relative) := MapName(dnsName, zones).value;
    var normal := Normalize(zone);
    NormalizeIdempotent(dnsName);
    if name != normal {
      NameOfRelative(name, normal);
      if relative == "@" {
        assert "@" + "." + normal == "@." + normal;
        ApexStable(name, zones);
      } else {
        RootMatchesOnlyRoot(name);
        RelativeIsLower(name, normal);
        JoinedIsName(name, zone, relative);
      }
    }
  }

  lemma NameOfRelative(name: string, zone: string)
    requires Matches(name, zone) && name != zone
    ensures name == Relative(name, zone) + "." + zone
  {
    assert name == name[..|name| - |zone| - 1] + name[|name| - |zone| - 1..];
  }

  /** Below its zone a normalised name is what its parts join to, up to the form the zone is stored in. */
  lemma JoinedIsName(name: string, zone: string, relative: string)
    requires IsNormal(name) && Normalize(zone) != "" && relative != "@" && Lower(relative) == relative
    requires name == relative + "." + Normalize(zone)
    ensures Normalize(Join(zone, relative)) == name
  {
    NormalizeJoined(zone, relative);
  }

  lemma ApexStable(name: string, zones: seq<string>)
    requires SafeOrder(zones) && PickZone(name, zones).Some?
    ensures var zone := zones[PickZone(name, zones).value]; MapName(zone, zones) == Some((zone, "@"))
  {
    var i := PickZone(name, zones).value;
    var normal := Normalize(zones[i]);
    SafeOrderSuffices(name, zones);
    BestOfItself(name, zones, i);
    SafeOrderSuffices(normal, zones);
    MostSpecificUnique(normal, zones, i);
  }
}
