/**
 The register of gate debt and its ratchet (scripts/check-gate-integrity.py, rules R1, R3 and R4 of
 `main`). Observed counts, gates and the names that are reached are inputs.
 */
module GateRegister {
  import opened Wrappers

  datatype Kind = Skip | Swallow | Inert

  /**
   A counted entry numbers the observations of a kind at a site of a file. The other two classify a
   file by its register key: not a gate, or a gate that is owed an invocation.
   */
  datatype Entry = Count(kind: Kind, file: string, site: string) | ExemptFile(key: string) | UnwiredFile(key: string)

  type Register = map<Entry, nat>

  /** Gates by name, with their register keys. */
  type Gates = map<string, string>

  datatype Finding =
    | New(entry: Entry)
    | Worse(entry: Entry)
    | Shrunk(entry: Entry)
    | Repaired(entry: Entry)
    | Unreferenced(gate: string)

  /** The register classifies the file as not a gate. */
  predicate IsExempt(register: Register, key: string) {
    ExemptFile(key) in register
  }

  /** What is left of the observations once swallows in exempt files are set aside. */
  predicate Stands(register: Register, e: Entry) {
    !(e.Count? && e.kind == Swallow && IsExempt(register, e.file))
  }

  // ---- What each rule reports ----

  predicate GateFinding(register: Register, gates: Gates, reached: set<string>, gate: string, f: Finding) {
    && gate in gates
    && !IsExempt(register, gates[gate])
    && if gate in reached then UnwiredFile(gates[gate]) in register && f == Repaired(UnwiredFile(gates[gate]))
       else UnwiredFile(gates[gate]) !in register && f == Unreferenced(gate)
  }

  predicate ObservedFinding(register: Register, observed: Register, e: Entry, f: Finding) {
    && e in observed
    && Stands(register, e)
    && if e !in register then f == New(e)
       else if observed[e] > register[e] then f == Worse(e)
       else observed[e] < register[e] && f == Shrunk(e)
  }

  predicate RegisteredFinding(register: Register, observed: Register, gates: Gates, e: Entry, f: Finding) {
    && e in register
    && f == Repaired(e)
    && if e.Count? then !(e in observed && Stands(register, e)) else e.key !in gates.Values
  }

  method CheckGate(register: Register, gates: Gates, reached: set<string>, gate: string)
    returns (findings: set<Finding>)
    requires gate in gates
    ensures forall f :: f in findings <==> GateFinding(register, gates, reached, gate, f)
  {
    var key := gates[gate];
    if IsExempt(register, key) {
      return {};
    }
    if gate in reached {
      return if UnwiredFile(key) in register then {Repaired(UnwiredFile(key))} else {};
    }
    return if UnwiredFile(key) in register then {} else {Unreferenced(gate)};
  }

  method CheckGates(register: Register, gates: Gates, reached: set<string>) returns (findings: set<Finding>)
    ensures forall f :: f in findings <==> exists g :: GateFinding(register, gates, reached, g, f)
  {
    findings := {};
    var left := gates.Keys;
    while left != {}
      invariant left <= gates.Keys
      invariant forall f :: f in findings <==> exists g :: g !in left && GateFinding(register, gates, reached, g, f)
    {
      var gate :| gate in left;
      var more := CheckGate(register, gates, reached, gate);
      findings := findings + more;
      left := left - {gate};
    }
  }

  /** The observations of exempt files' swallows are deleted before the comparison. */
  method SetAside(register: Register, observed: Register) returns (standing: Register)
    ensures forall e :: e in standing <==> e in observed && Stands(register, e)
    ensures forall e <- standing :: standing[e] == observed[e]
  {
    standing := observed;
    var left := observed.Keys;
    while left != {}
      invariant left <= observed.Keys
      invariant forall e :: e in standing <==> e in observed && (e in left || Stands(register, e))
      invariant forall e <- standing :: standing[e] == observed[e]
    {
      var e :| e in left;
      if !Stands(register, e) {
        standing := standing - {e};
      }
      left := left - {e};
    }
  }

  method CheckObserved(register: Register, observed: Register) returns (findings: set<Finding>)
    ensures forall f :: f in findings <==> exists e :: ObservedFinding(register, observed, e, f)
  {
    var standing := SetAside(register, observed);
    findings := {};
    var left := standing.Keys;
    while left != {}
      invariant left <= standing.Keys
      invariant forall f :: f in findings <==> exists e :: e !in left && ObservedFinding(register, observed, e, f)
    {
      var e :| e in left;
      if e !in register {
        findings := findings + {New(e)};
      } else if standing[e] > register[e] {
        findings := findings + {Worse(e)};
      } else if standing[e] < register[e] {
        findings := findings + {Shrunk(e)};
      }
      left := left - {e};
    }
  }

  method CheckRegistered(register: Register, observed: Register, gates: Gates) returns (findings: set<Finding>)
    ensures forall f :: f in findings <==> exists e :: RegisteredFinding(register, observed, gates, e, f)
  {
    var standing := SetAside(register, observed);
    findings := {};
    var left := register.Keys;
    while left != {}
      invariant left <= register.Keys
      invariant forall f ::
        f in findings <==> exists e :: e !in left && RegisteredFinding(register, observed, gates, e, f)
    {
      var e :| e in left;
      if e.Count? {
        if e !in standing {
          findings := findings + {Repaired(e)};
        }
      } else if e.key !in gates.Values {
        findings := findings + {Repaired(e)};
      }
      left := left - {e};
    }
  }

  // ---- When nothing is found ----

  /** The counted entries are the observations that stand: the same entries with the same numbers. */
  ghost predicate CountsAgree(register: Register, observed: Register) {
    && (forall e :: e in observed && Stands(register, e) ==> e in register && register[e] == observed[e])
    && (forall e :: e in register && e.Count? ==> e in observed && Stands(register, e))
  }

  /** Outside the exempt files, the unwired entries are exactly the gates that nothing reaches. */
  ghost predicate UnwiredAgree(register: Register, gates: Gates, reached: set<string>) {
    forall g :: g in gates && !IsExempt(register, gates[g]) ==> (UnwiredFile(gates[g]) in register <==> g !in reached)
  }

  ghost predicate ClassifiedExist(register: Register, gates: Gates) {
    forall e :: e in register && !e.Count? ==> e.key in gates.Values
  }

  /** Observed, and not a swallow in a file that the register says is no gate. */
  predicate Judged(register: Register, observed: Register, e: Entry) {
    e in observed && (e.Count? && ExemptFile(e.file) in register ==> e.kind == Skip || e.kind == Inert)
  }

  /** What the check says of each entry and each gate. */
  ghost predicate Reports(register: Register, observed: Register, gates: Gates, reached: set<string>, f: Finding) {
    match f
    case New(e) => Judged(register, observed, e) && e !in register
    case Worse(e) => Judged(register, observed, e) && e in register && observed[e] > register[e]
    case Shrunk(e) => Judged(register, observed, e) && e in register && observed[e] < register[e]
    case Unreferenced(g) =>
      g in gates && g !in reached && ExemptFile(gates[g]) !in register && UnwiredFile(gates[g]) !in register
    case Repaired(e) =>
      && e in register
      && match e
         case Count(_, _, _) => !Judged(register, observed, e)
         case ExemptFile(key) => key !in gates.Values
         case UnwiredFile(key) =>
           || key !in gates.Values
           || (ExemptFile(key) !in register && exists g :: g in gates && gates[g] == key && g in reached)
  }

  lemma FindingsAreReports(register: Register, observed: Register, gates: Gates, reached: set<string>, f: Finding)
    ensures Reports(register, observed, gates, reached, f) <==>
      || (exists g :: GateFinding(register, gates, reached, g, f))
      || (exists e :: ObservedFinding(register, observed, e, f))
      || (exists e :: RegisteredFinding(register, observed, gates, e, f))
  {
    match f
    case Unreferenced(g) =>
      assert Reports(register, observed, gates, reached, f) ==> GateFinding(register, gates, reached, g, f);
    case Repaired(e) => RepairedIff(register, observed, gates, reached, e);
    case _ => assert Reports(register, observed, gates, reached, f) ==> ObservedFinding(register, observed, f.entry, f);
  }

  lemma RepairedIff(register: Register, observed: Register, gates: Gates, reached: set<string>, e: Entry)
    ensures Reports(register, observed, gates, reached, Repaired(e)) <==>
      || (exists g :: GateFinding(register, gates, reached, g, Repaired(e)))
      || RegisteredFinding(register, observed, gates, e, Repaired(e))
  {
    if e.UnwiredFile? && e in register && ExemptFile(e.key) !in register {
      if g :| g in gates && gates[g] == e.key && g in reached {
        assert GateFinding(register, gates, reached, g, Repaired(e));
      }
    }
  }

  /** The check reports nothing exactly where the register is accurate, in every direction. */
  method CheckRegister(register: Register, observed: Register, gates: Gates, reached: set<string>)
    returns (findings: set<Finding>)
    ensures findings == {} <==>
      CountsAgree(register, observed) && UnwiredAgree(register, gates, reached) && ClassifiedExist(register, gates)
    ensures forall f :: f in findings <==>
      || (exists g :: GateFinding(register, gates, reached, g, f))
      || (exists e :: ObservedFinding(register, observed, e, f))
      || (exists e :: RegisteredFinding(register, observed, gates, e, f))
    ensures forall f :: f in findings <==> Reports(register, observed, gates, reached, f)
  {
    var a := CheckGates(register, gates, reached);
    var b := CheckObserved(register, observed);
    var c := CheckRegistered(register, observed, gates);
    findings := a + b + c;
    QuietGatesIff(register, gates, reached, a);
    QuietCountsIff(register, observed, gates, b, c);
    forall f: Finding {
      FindingsAreReports(register, observed, gates, reached, f);
    }
  }

  lemma QuietGatesIff(register: Register, gates: Gates, reached: set<string>, a: set<Finding>)
    requires forall f :: f in a <==> exists g :: GateFinding(register, gates, reached, g, f)
    ensures a == {} <==> UnwiredAgree(register, gates, reached)
  {
    if a == {} {
      forall g | g in gates && !IsExempt(register, gates[g])
        ensures UnwiredFile(gates[g]) in register <==> g !in reached
      {
        var f := if g in reached then Repaired(UnwiredFile(gates[g])) else Unreferenced(g);
        assert f !in a;
        assert !GateFinding(register, gates, reached, g, f);
      }
    } else {
      var f :| f in a;
      var g :| GateFinding(register, gates, reached, g, f);
    }
  }

  lemma QuietCountsIff(register: Register, observed: Register, gates: Gates, b: set<Finding>, c: set<Finding>)
    requires forall f :: f in b <==> exists e :: ObservedFinding(register, observed, e, f)
    requires forall f :: f in c <==> exists e :: RegisteredFinding(register, observed, gates, e, f)
    ensures b == {} && c == {} <==> CountsAgree(register, observed) && ClassifiedExist(register, gates)
  {
    if b == {} && c == {} {
      forall e | e in observed && Stands(register, e)
        ensures e in register && register[e] == observed[e]
      {
        assert New(e) !in b && Worse(e) !in b && Shrunk(e) !in b;
        assert !ObservedFinding(register, observed, e, New(e));
        assert !ObservedFinding(register, observed, e, Worse(e));
        assert !ObservedFinding(register, observed, e, Shrunk(e));
      }
      forall e | e in register
        ensures if e.Count? then e in observed && Stands(register, e) else e.key in gates.Values
      {
        assert Repaired(e) !in c;
        assert !RegisteredFinding(register, observed, gates, e, Repaired(e));
      }
    } else if b != {} {
      var f :| f in b;
      var e :| ObservedFinding(register, observed, e, f);
    } else {
      var f :| f in c;
      var e :| RegisteredFinding(register, observed, gates, e, f);
    }
  }

  // ---- The unwired gates as a set ----

  ghost predicate OneKeyEach(gates: Gates) {
    forall g, h :: g in gates && h in gates && gates[g] == gates[h] ==> g == h
  }

  function UnreachedKeys(register: Register, gates: Gates, reached: set<string>): set<string> {
    set g | g in gates && g !in reached && !IsExempt(register, gates[g]) :: gates[g]
  }

  function UnwiredKeys(register: Register): set<string> {
    set e | e in register && e.UnwiredFile? && !IsExempt(register, e.key) :: e.key
  }

  /** With a key for each gate, an accurate register's unwired keys are those of the unreached gates. */
  lemma UnwiredAreTheUnreached(register: Register, gates: Gates, reached: set<string>)
    requires OneKeyEach(gates) && UnwiredAgree(register, gates, reached) && ClassifiedExist(register, gates)
    ensures UnwiredKeys(register) == UnreachedKeys(register, gates, reached)
  {
  }

  // ---- The census of gates ----

  /** A candidate gate in the scan: its name and its register key. */
  datatype Candidate = Candidate(name: string, key: string)

  ghost predicate KeysDiffer(found: seq<Candidate>) {
    forall i, j :: 0 <= i < j < |found| ==> found[i].key != found[j].key
  }

  ghost predicate NamesDiffer(found: seq<Candidate>) {
    forall i, j :: 0 <= i < j < |found| ==> found[i].name != found[j].name
  }

  /** No key and no name stands for two files. */
  ghost predicate NoCollision(found: seq<Candidate>) {
    KeysDiffer(found) && NamesDiffer(found)
  }

  /** The tables that the scan builds: the keys it has seen and the gates by name. */
  function Keys(found: seq<Candidate>): set<string> {
    if found == [] then {} else Keys(found[..|found| - 1]) + {found[|found| - 1].key}
  }

  function GatesOf(found: seq<Candidate>): Gates {
    if found == [] then map[]
    else
      var last := found[|found| - 1];
      GatesOf(found[..|found| - 1])[last.name := last.key]
  }

  predicate Clash(found: seq<Candidate>) {
    found != [] && (Clash(found[..|found| - 1]) || found[|found| - 1].name in GatesOf(found[..|found| - 1]))
  }

  lemma {:induction false} KeysAre(found: seq<Candidate>, k: string)
    ensures k in Keys(found) <==> exists j :: 0 <= j < |found| && found[j].key == k
  {
    if found != [] {
      KeysAre(found[..|found| - 1], k);
      assert found[|found| - 1].key == k ==> exists j :: 0 <= j < |found| && found[j].key == k;
    }
  }

  lemma {:induction false} NamesAre(found: seq<Candidate>, n: string)
    ensures n in GatesOf(found) <==> exists j :: 0 <= j < |found| && found[j].name == n
  {
    if found != [] {
      NamesAre(found[..|found| - 1], n);
      assert found[|found| - 1].name == n ==> exists j :: 0 <= j < |found| && found[j].name == n;
    }
  }

  lemma {:induction false} ClashIff(found: seq<Candidate>)
    ensures Clash(found) <==> !NamesDiffer(found)
  {
    if found != [] {
      var n := |found| - 1;
      ClashIff(found[..n]);
      NamesAre(found[..n], found[n].name);
    }
  }

  lemma {:induction false} GatesHold(found: seq<Candidate>, j: nat)
    requires NamesDiffer(found) && j < |found|
    ensures found[j].name in GatesOf(found) && GatesOf(found)[found[j].name] == found[j].key
  {
    var n := |found| - 1;
    if j < n {
      GatesHold(found[..n], j);
      assert found[..n][j] == found[j];
    }
  }

  lemma GatesAre(found: seq<Candidate>, n: string, k: string)
    requires NamesDiffer(found)
    ensures (n in GatesOf(found) && GatesOf(found)[n] == k) <==> Candidate(n, k) in found
  {
    NamesAre(found, n);
    if j :| 0 <= j < |found| && found[j].name == n {
      GatesHold(found, j);
      assert found[j] == Candidate(n, GatesOf(found)[n]);
    }
  }

  lemma GatesHaveOneKeyEach(found: seq<Candidate>)
    requires NoCollision(found)
    ensures OneKeyEach(GatesOf(found))
  {
    forall g, h | g in GatesOf(found) && h in GatesOf(found) && GatesOf(found)[g] == GatesOf(found)[h]
      ensures g == h
    {
      GatesAre(found, g, GatesOf(found)[g]);
      GatesAre(found, h, GatesOf(found)[h]);
    }
  }

  lemma Grown(found: seq<Candidate>, i: nat)
    requires i < |found|
    ensures found[..i + 1][..i] == found[..i] && found[..i + 1][i] == found[i]
    ensures KeysDiffer(found[..i]) ==> (KeysDiffer(found[..i + 1]) <==> found[i].key !in Keys(found[..i]))
    ensures !KeysDiffer(found[..i + 1]) ==> !KeysDiffer(found)
  {
    assert found[..i + 1][..i] == found[..i];
    KeysAre(found[..i], found[i].key);
  }

  /** The gates of a scan, or None where a key or a name would stand for two files. */
  method Census(found: seq<Candidate>) returns (r: Option<Gates>)
    ensures r.Some? <==> NoCollision(found)
    ensures r.Some? ==> OneKeyEach(r.value)
    ensures r.Some? ==> forall n, k :: (n in r.value && r.value[n] == k) <==> Candidate(n, k) in found
  {
    var gates: Gates, keys, clash := map[], {}, false;
    for i := 0 to |found|
      invariant KeysDiffer(found[..i]) && keys == Keys(found[..i])
      invariant gates == GatesOf(found[..i]) && clash == Clash(found[..i])
    {
      var c := found[i];
      Grown(found, i);
      if c.key in keys {
        return None;
      }
      keys := keys + {c.key};
      if c.name in gates {
        clash := true;
      }
      gates := gates[c.name := c.key];
    }
    assert found[..|found|] == found;
    ClashIff(found);
    if clash {
      return None;
    }
    GatesHaveOneKeyEach(found);
    forall n, k
      ensures (n in gates && gates[n] == k) <==> Candidate(n, k) in found
    {
      GatesAre(found, n, k);
    }
    return Some(gates);
  }
}
