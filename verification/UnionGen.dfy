/**
 The code generator for tagged unions emits two ways to go from a tag to an arm, a chain of
 conditionals and a switch. They select the same arm for every tag; a union that is saved
 and loaded comes back unless the loader's starting arm already answers to the tag.
 */
module UnionGen {
  import opened Text

  /** An arm of a union: its labels, whether it is also the default, and whether it is void. */
  datatype Field = Field(cases: seq<nat>, hasDefault: bool, isVoid: bool)

  /** What the parser accepts and a compiler accepts of the switch: at most one default, a
      label for every other arm, and no label on two arms. */
  ghost predicate Wellformed(u: seq<Field>) {
    && (forall i, j :: 0 <= i < j < |u| ==> !(u[i].hasDefault && u[j].hasDefault))
    && (forall i :: 0 <= i < |u| && !u[i].hasDefault ==> u[i].cases != [])
    && (forall i, j, tag :: 0 <= i < |u| && 0 <= j < |u| && tag in u[i].cases && tag in u[j].cases ==> i == j)
  }

  // ---------------------------------------------------------------- arm numbers

  function NonVoid(u: seq<Field>): (n: nat)
    ensures n <= |u|
  {
    if u == [] then 0 else NonVoid(u[..|u| - 1]) + (if u[|u| - 1].isVoid then 0 else 1)
  }

  /** Void arms have number 0, the others 1, 2, 3 and so on. */
  function FieldNo(u: seq<Field>, i: nat): nat
    requires i < |u|
  {
    if u[i].isVoid then 0 else NonVoid(u[..i + 1])
  }

  method NumberFields(u: seq<Field>) returns (numbers: seq<nat>)
    ensures |numbers| == |u| && forall i :: 0 <= i < |u| ==> numbers[i] == FieldNo(u, i)
  {
    numbers := [];
    var next := 0;
    for k := 0 to |u|
      invariant |numbers| == k && next == NonVoid(u[..k])
      invariant forall i :: 0 <= i < k ==> numbers[i] == FieldNo(u, i)
    {
      assert u[..k + 1][..k] == u[..k];
      if u[k].isVoid {
        numbers := numbers + [0];
      } else {
        next := next + 1;
        numbers := numbers + [next];
      }
    }
  }

  lemma {:induction false} NonVoidGrows(u: seq<Field>, i: nat, j: nat)
    requires i <= j <= |u|
    ensures NonVoid(u[..i]) <= NonVoid(u[..j])
    decreases j - i
  {
    if i < j {
      assert u[..j][..j - 1] == u[..j - 1];
      NonVoidGrows(u, i, j - 1);
    }
  }

  /** Two arms with the same number are the same arm, or both void. */
  lemma NumbersTellArms(u: seq<Field>, i: nat, j: nat)
    requires i < |u| && j < |u|
    ensures FieldNo(u, i) == FieldNo(u, j) <==> i == j || (u[i].isVoid && u[j].isVoid)
    ensures FieldNo(u, i) == 0 <==> u[i].isVoid
  {
    assert u[..i + 1][..i] == u[..i] && u[..j + 1][..j] == u[..j];
    if i < j {
      NonVoidGrows(u, i + 1, j);
    } else if j < i {
      NonVoidGrows(u, j + 1, i);
    }
  }

  // ---------------------------------------------------------------- the chain of conditionals

  datatype Clause = Clause(tags: seq<nat>, value: int)

  /** which == tag || ... ? value : ... : last */
  datatype Chain = Chain(clauses: seq<Clause>, last: int)

  /** The value of the first clause that lists the tag. */
  function FirstClause(clauses: seq<Clause>, which: nat): Option<int> {
    if clauses == [] then None
    else
      var r := FirstClause(clauses[..|clauses| - 1], which);
      var c := clauses[|clauses| - 1];
      if r.Some? then r else if which in c.tags then Some(c.value) else None
  }

  function RunChain(c: Chain, which: nat): int {
    match FirstClause(c.clauses, which)
    case Some(value) => value
    case None => c.last
  }

  function Clauses(u: seq<Field>, k: nat): seq<Clause>
    requires k <= |u|
  {
    if k == 0 then []
    else if u[k - 1].hasDefault then Clauses(u, k - 1)
    else Clauses(u, k - 1) + [Clause(u[k - 1].cases, FieldNo(u, k - 1))]
  }

  function DefaultOf(u: seq<Field>, k: nat): Option<nat>
    requires k <= |u|
    ensures DefaultOf(u, k).Some? ==> DefaultOf(u, k).value < k && u[DefaultOf(u, k).value].hasDefault
    ensures DefaultOf(u, k).None? ==> forall i :: 0 <= i < k ==> !u[i].hasDefault
  {
    if k == 0 then None
    else if u[k - 1].hasDefault then Some(k - 1)
    else DefaultOf(u, k - 1)
  }

  function ChainOf(u: seq<Field>): Chain {
    var def := DefaultOf(u, |u|);
    Chain(Clauses(u, |u|), if def.Some? then FieldNo(u, def.value) else -1)
  }

  /** Emits the body of the field-number function. */
  method UnionFunction(u: seq<Field>, numbers: seq<nat>) returns (c: Chain)
    requires |numbers| == |u| && forall i :: 0 <= i < |u| ==> numbers[i] == FieldNo(u, i)
    ensures c == ChainOf(u)
  {
    var def: Option<nat> := None;
    var clauses := [];
    for k := 0 to |u|
      invariant clauses == Clauses(u, k) && def == DefaultOf(u, k)
    {
      if u[k].hasDefault {
        def := Some(k);
        continue;
      }
      clauses := clauses + [Clause(u[k].cases, numbers[k])];
    }
    c := Chain(clauses, if def.Some? then numbers[def.value] else -1);
  }

  // ---------------------------------------------------------------- the switch

  datatype Label = Case(tag: nat) | Default

  /** One group of the switch: its labels, and whether its body does nothing. */
  datatype Group = Group(labels: seq<Label>, isVoid: bool)

  /** What the switch does: falls out, runs an empty body, or works on an arm. */
  datatype Taken = NoArm | VoidArm | Arm(index: nat)

  function LabelsOf(f: Field): seq<Label> {
    seq(|f.cases|, i requires 0 <= i < |f.cases| => Case(f.cases[i])) + (if f.hasDefault then [Default] else [])
  }

  function SwitchOf(u: seq<Field>): seq<Group> {
    seq(|u|, i requires 0 <= i < |u| => Group(LabelsOf(u[i]), u[i].isVoid))
  }

  /** The group that carries a label. */
  function GroupWith(groups: seq<Group>, l: Label): (r: Option<nat>)
    ensures r.Some? ==> r.value < |groups| && l in groups[r.value].labels
    ensures r.None? ==> forall i :: 0 <= i < |groups| ==> l !in groups[i].labels
  {
    if groups == [] then None
    else if l in groups[|groups| - 1].labels then Some(|groups| - 1)
    else GroupWith(groups[..|groups| - 1], l)
  }

  /** A switch goes to the label of the tag, or else to the default wherever it stands. */
  function RunSwitch(groups: seq<Group>, which: nat): Taken {
    var hit := GroupWith(groups, Case(which));
    var target := if hit.Some? then hit else GroupWith(groups, Default);
    match target
    case None => NoArm
    case Some(i) => if groups[i].isVoid then VoidArm else Arm(i)
  }

  function TakenNo(u: seq<Field>, t: Taken): int
    requires t.Arm? ==> t.index < |u|
  {
    match t
    case NoArm => -1
    case VoidArm => 0
    case Arm(i) => FieldNo(u, i)
  }

  // ---------------------------------------------------------------- they agree

  lemma CaseInLabels(f: Field, tag: nat)
    ensures Case(tag) in LabelsOf(f) <==> tag in f.cases
    ensures Default in LabelsOf(f) <==> f.hasDefault
  {
    if tag in f.cases {
      var i :| 0 <= i < |f.cases| && f.cases[i] == tag;
      assert LabelsOf(f)[i] == Case(tag);
    }
    if f.hasDefault {
      assert LabelsOf(f)[|f.cases|] == Default;
    }
  }

  lemma LastClause(u: seq<Field>, k: nat, which: nat)
    requires 0 < k <= |u| && !u[k - 1].hasDefault
    ensures var before := FirstClause(Clauses(u, k - 1), which);
            FirstClause(Clauses(u, k), which)
            == if before.Some? then before
               else if which in u[k - 1].cases then Some(FieldNo(u, k - 1)) else None
  {}

  lemma {:induction false} ClauseMiss(u: seq<Field>, k: nat, which: nat)
    requires k <= |u| && forall i :: 0 <= i < k && !u[i].hasDefault ==> which !in u[i].cases
    ensures FirstClause(Clauses(u, k), which) == None
  {
    if k > 0 {
      ClauseMiss(u, k - 1, which);
      if !u[k - 1].hasDefault { LastClause(u, k, which); }
    }
  }

  lemma {:induction false} ClauseHit(u: seq<Field>, k: nat, which: nat, i: nat)
    requires i < k <= |u| && !u[i].hasDefault && which in u[i].cases
    requires forall j :: 0 <= j < |u| && which in u[j].cases ==> j == i
    ensures FirstClause(Clauses(u, k), which) == Some(FieldNo(u, i))
  {
    if i == k - 1 {
      ClauseMiss(u, k - 1, which);
      LastClause(u, k, which);
    } else {
      ClauseHit(u, k - 1, which, i);
      if !u[k - 1].hasDefault { LastClause(u, k, which); }
    }
  }

  /** The chain gives the number of the arm the switch takes: -1 exactly when the switch
      returns false, 0 exactly for a void arm, and otherwise that of the same arm. */
  lemma ChainAgreesWithSwitch(u: seq<Field>, which: nat)
    requires Wellformed(u)
    ensures var t := RunSwitch(SwitchOf(u), which);
            && (t.Arm? ==> t.index < |u|)
            && RunChain(ChainOf(u), which) == TakenNo(u, t)
            && (RunChain(ChainOf(u), which) == -1 <==> t == NoArm)
            && (RunChain(ChainOf(u), which) == 0 <==> t == VoidArm)
            && (forall i :: 0 <= i < |u| && !u[i].isVoid ==>
                  (RunChain(ChainOf(u), which) == FieldNo(u, i) <==> t == Arm(i)))
  {
    var t := RunSwitch(SwitchOf(u), which);
    TargetsMatch(u, which);
    if t.Arm? {
      forall i | 0 <= i < |u| && !u[i].isVoid ensures FieldNo(u, i) == FieldNo(u, t.index) <==> i == t.index {
        NumbersTellArms(u, i, t.index);
      }
      NumbersTellArms(u, t.index, t.index);
    } else {
      forall i | 0 <= i < |u| && !u[i].isVoid ensures FieldNo(u, i) > 0 { NumbersTellArms(u, i, i); }
    }
  }

  lemma HitIs(u: seq<Field>, which: nat)
    ensures var hit := GroupWith(SwitchOf(u), Case(which));
            && (hit.Some? ==> hit.value < |u| && which in u[hit.value].cases)
            && (hit.None? ==> forall i :: 0 <= i < |u| ==> which !in u[i].cases)
    ensures var def := GroupWith(SwitchOf(u), Default);
            && (def.Some? ==> def.value < |u| && u[def.value].hasDefault)
            && (def.None? ==> forall i :: 0 <= i < |u| ==> !u[i].hasDefault)
  {
    forall i | 0 <= i < |u|
      ensures Case(which) in SwitchOf(u)[i].labels <==> which in u[i].cases
      ensures Default in SwitchOf(u)[i].labels <==> u[i].hasDefault
    {
      CaseInLabels(u[i], which);
    }
  }

  lemma OneDefault(u: seq<Field>)
    requires Wellformed(u)
    ensures GroupWith(SwitchOf(u), Default) == DefaultOf(u, |u|)
  {
    HitIs(u, 0);
  }

  /** Where a switch jumps to, if anywhere. */
  function Target(u: seq<Field>, which: nat): Option<nat> {
    var hit := GroupWith(SwitchOf(u), Case(which));
    if hit.Some? then hit else GroupWith(SwitchOf(u), Default)
  }

  lemma ChainFindsTarget(u: seq<Field>, which: nat)
    requires Wellformed(u)
    ensures Target(u, which).Some? ==> Target(u, which).value < |u|
    ensures RunChain(ChainOf(u), which)
         == if Target(u, which).Some? then FieldNo(u, Target(u, which).value) else -1
  {
    HitIs(u, which);
    OneDefault(u);
    var hit := GroupWith(SwitchOf(u), Case(which));
    if hit.Some? && !u[hit.value].hasDefault {
      ClauseHit(u, |u|, which, hit.value);
    } else {
      ClauseMiss(u, |u|, which);
    }
  }

  lemma TargetsMatch(u: seq<Field>, which: nat)
    requires Wellformed(u)
    ensures var t := RunSwitch(SwitchOf(u), which);
            (t.Arm? ==> t.index < |u| && !u[t.index].isVoid) && RunChain(ChainOf(u), which) == TakenNo(u, t)
  {
    ChainFindsTarget(u, which);
  }

  // ---------------------------------------------------------------- a union object

  /** The stored tag, the arm that is alive, and its value; void arms have none. */
  datatype Object<V> = Object(tag: nat, arm: Taken, value: Option<V>)

  /** What is written for a union: the tag, and the value of the arm if it has one. */
  datatype Saved<V> = Saved(tag: nat, payload: Option<V>)

  function FieldNumber(u: seq<Field>, which: nat): int {
    RunChain(ChainOf(u), which)
  }

  function ArmOf(u: seq<Field>, which: nat): Taken {
    RunSwitch(SwitchOf(u), which)
  }

  /** A new object with this tag; blank is the value a new arm starts with. */
  function Fresh<V>(u: seq<Field>, which: nat, blank: V): Object<V> {
    Object(which, ArmOf(u, which), if ArmOf(u, which).Arm? then Some(blank) else None)
  }

  /** While the new tag has the number of the old one, nothing changes, the stored tag
      included. */
  function Retagged<V>(u: seq<Field>, o: Object<V>, which: nat, blank: V): Object<V> {
    if FieldNumber(u, which) == FieldNumber(u, o.tag) then o else Fresh(u, which, blank)
  }

  /** The object's arm is the one its tag selects. */
  predicate Sound<V>(u: seq<Field>, o: Object<V>) {
    o.arm == ArmOf(u, o.tag) && (o.arm.Arm? <==> o.value.Some?)
  }

  function Save<V>(u: seq<Field>, o: Object<V>): Option<Saved<V>> {
    match ArmOf(u, o.tag)
    case NoArm => None
    case VoidArm => Some(Saved(o.tag, None))
    case Arm(_) => Some(Saved(o.tag, o.value))
  }

  function Load<V>(u: seq<Field>, o: Object<V>, s: Saved<V>, blank: V): Option<Object<V>> {
    if FieldNumber(u, s.tag) < 0 then None
    else
      var p := Retagged(u, o, s.tag, blank);
      Some(if ArmOf(u, p.tag).Arm? then p.(value := s.payload) else p)
  }

  class UnionObject<V> {
    const fields: seq<Field>
    var tag: nat
    var arm: Taken
    var value: Option<V>

    function State(): Object<V>
      reads this
    {
      Object(tag, arm, value)
    }

    constructor (fields: seq<Field>, which: nat, blank: V)
      ensures this.fields == fields && State() == Fresh(fields, which, blank)
    {
      this.fields := fields;
      tag := which;
      arm := ArmOf(fields, which);
      value := if ArmOf(fields, which).Arm? then Some(blank) else None;
    }

    method SetTag(which: nat, validate: bool, blank: V) returns (ok: bool)
      modifies this
      ensures ok <==> FieldNumber(fields, which) >= 0 || !validate
      ensures State() == if ok then Retagged(fields, old(State()), which, blank) else old(State())
      ensures old(Sound(fields, State())) ==> Sound(fields, State())
    {
      var fnum := FieldNumber(fields, which);
      if fnum < 0 && validate {
        return false;
      }
      if fnum != FieldNumber(fields, tag) {
        tag := which;
        arm := ArmOf(fields, which);
        value := if arm.Arm? then Some(blank) else None;
      }
      ok := true;
    }
  }

  /** The arm a tag selects, by its number. */
  lemma SameNumberSameArm(u: seq<Field>, a: nat, b: nat)
    requires Wellformed(u)
    ensures FieldNumber(u, a) == FieldNumber(u, b) <==> ArmOf(u, a) == ArmOf(u, b)
  {
    ChainAgreesWithSwitch(u, a);
    ChainAgreesWithSwitch(u, b);
    TargetsMatch(u, a);
    TargetsMatch(u, b);
  }

  /** Loading a saved union into any sound object always restores the arm and its value, and
      restores the tag exactly when the object has that tag or another arm. */
  lemma LoadRestoresTagIff<V>(u: seq<Field>, v: Object<V>, into: Object<V>, blank: V)
    requires Wellformed(u) && Sound(u, v) && Sound(u, into) && v.arm != NoArm
    ensures Save(u, v).Some? && Load(u, into, Save(u, v).value, blank).Some?
    ensures var r := Load(u, into, Save(u, v).value, blank).value;
            && Sound(u, r) && r.arm == v.arm && r.value == v.value
            && (r.tag == v.tag <==> v.tag == into.tag || FieldNumber(u, v.tag) != FieldNumber(u, into.tag))
  {
    ChainAgreesWithSwitch(u, v.tag);
    SameNumberSameArm(u, v.tag, into.tag);
  }

  /** A fresh union has tag 0: every saved union comes back whole exactly when no other tag
      selects the arm of tag 0. */
  lemma FreshRestoresAllIff<V(!new)>(u: seq<Field>, blank: V)
    requires Wellformed(u)
    ensures (forall v: Object<V> :: Sound(u, v) && v.arm != NoArm ==>
               Load(u, Fresh(u, 0, blank), Save(u, v).value, blank) == Some(v))
       <==> (forall tag: nat :: ArmOf(u, tag) == ArmOf(u, 0) && ArmOf(u, 0) != NoArm ==> tag == 0)
  {
    var start := Fresh(u, 0, blank);
    forall v: Object<V> | Sound(u, v) && v.arm != NoArm
      ensures Load(u, start, Save(u, v).value, blank) == Some(v)
         <==> (v.tag == 0 || ArmOf(u, v.tag) != ArmOf(u, 0))
    {
      LoadRestoresTagIff(u, v, start, blank);
      SameNumberSameArm(u, v.tag, 0);
    }
    if tag: nat :| ArmOf(u, tag) == ArmOf(u, 0) && ArmOf(u, 0) != NoArm && tag != 0 {
      assert Sound(u, Fresh(u, tag, blank));
    }
  }

  // ---------------------------------------------------------------- the two unions of the store

  /** Commands and results of the store: eight arms, the tag of each its place. */
  const STORE_ARMS: seq<Field> := seq(8, i requires 0 <= i < 8 => Field([i], false, false))

  lemma StoreArms()
    ensures Wellformed(STORE_ARMS)
    ensures forall i :: 0 <= i < 8 ==> STORE_ARMS[i].cases == [i] && FieldNo(STORE_ARMS, i) == i + 1
  {
    AllCounted(STORE_ARMS, 8);
  }

  lemma {:induction false} AllCounted(u: seq<Field>, k: nat)
    requires k <= |u| && forall i :: 0 <= i < |u| ==> !u[i].isVoid
    ensures forall i :: 0 <= i < k ==> FieldNo(u, i) == i + 1
    ensures NonVoid(u[..k]) == k
  {
    if k > 0 {
      AllCounted(u, k - 1);
      assert u[..k][..k - 1] == u[..k - 1];
    }
  }

  /** Their tags 0 to 7 have the numbers 1 to 8 and no other tag has one, so every saved
      command and result comes back with its tag. */
  lemma StoreUnionsComeBack<V>(v: Object<V>, blank: V)
    requires Sound(STORE_ARMS, v)
    ensures FieldNumber(STORE_ARMS, v.tag) == if v.tag < 8 then v.tag + 1 else -1
    ensures v.tag < 8 ==>
              && Save(STORE_ARMS, v).Some?
              && Load(STORE_ARMS, Fresh(STORE_ARMS, 0, blank), Save(STORE_ARMS, v).value, blank) == Some(v)
  {
    StoreArms();
    StoreNumber(v.tag);
    StoreNumber(0);
    if v.tag < 8 {
      ChainAgreesWithSwitch(STORE_ARMS, v.tag);
      LoadRestoresTagIff(STORE_ARMS, v, Fresh(STORE_ARMS, 0, blank), blank);
    }
  }

  lemma StoreNumber(tag: nat)
    ensures FieldNumber(STORE_ARMS, tag) == if tag < 8 then tag + 1 else -1
  {
    StoreArms();
    if tag < 8 {
      ClauseHit(STORE_ARMS, 8, tag, tag);
    } else {
      ClauseMiss(STORE_ARMS, 8, tag);
    }
  }
}
