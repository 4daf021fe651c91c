/**
 The `QuantumEntity` class: a simulated actor with an energy level that each
 interaction drains by 10 down to 0, a status that turns dormant when the
 energy is spent, and a visualization tag derived from its code.
 */
module Entity {
  import opened Wrappers
  import opened Text

  /** `"Ativa"` and `"Adormecida"`. */
  datatype Status = Active | Dormant

  /** The four tags `generate_visualization` assigns:
      `"matplotlib"`, `"streamlit"`, `"codigo"` and `"texto"`. */
  datatype Visualization = Matplotlib | Streamlit | Codigo | Texto

  /** The 3D coordinates drawn once at construction; the draw itself is not modelled. */
  datatype Position = Position(x: real, y: real, z: real)

  datatype Entity = Entity(
    id: string,
    name: string,
    code: string,
    createdAt: int,
    energy: int,
    position: Position,
    connections: seq<string>,
    status: Status,
    visualization: Option<Visualization>)

  const InitialEnergy: int := 100
  const InteractionCost: int := 10
  const PlaceholderPrefix: string := "Entidade_"

  function Min(a: int, b: int): int { if a <= b then a else b }

  function Max(a: int, b: int): int { if a >= b then a else b }

  /** The placeholder name for a blank one: the prefix and the first six
      characters of the id. */
  function Placeholder(id: string): (r: string)
    ensures StartsWith(r, PlaceholderPrefix)
    ensures |r| == |PlaceholderPrefix| + Min(6, |id|)
    ensures StartsWith(id, r[|PlaceholderPrefix|..])
  {
    var r := PlaceholderPrefix + id[..Min(6, |id|)];
    assert r[..|PlaceholderPrefix|] == PlaceholderPrefix;
    assert r[|PlaceholderPrefix|..] == id[..Min(6, |id|)];
    r
  }

  /** The name an entity is given: the stripped name, or a placeholder built
      from the first six characters of the id when the name is blank. */
  function DisplayName(id: string, name: string): (r: string)
    ensures Strip(name) != [] ==> r == Strip(name)
    ensures Strip(name) == [] ==> StartsWith(r, PlaceholderPrefix) && r == Placeholder(id)
    ensures r != []
  {
    var stripped := Strip(name);
    if stripped != [] then stripped else Placeholder(id)
  }

  /** The reachable states of an entity: energy a multiple of 10 in [0, 100],
      and dormant exactly when the energy is spent. */
  predicate Reachable(e: Entity) {
    && 0 <= e.energy <= InitialEnergy
    && e.energy % InteractionCost == 0
    && (e.status == Dormant <==> e.energy == 0)
  }

  /** `QuantumEntity(name, code)`: the id, creation time and position are
      supplied by the caller in place of `uuid4`, `datetime.now` and the
      random draw. */
  function New(id: string, name: string, code: string, createdAt: int, position: Position): (e: Entity)
    ensures Reachable(e) && e.status == Active && e.energy == InitialEnergy
    ensures e.id == id && e.code == code && e.position == position && e.createdAt == createdAt
    ensures e.name != [] && (Strip(name) != [] ==> e.name == Strip(name))
    ensures e.connections == [] && e.visualization == None
  {
    Entity(id, DisplayName(id, name), code, createdAt, InitialEnergy, position, [], Active, None)
  }

  /** `interact`: the energy drops by 10 and never below 0; the entity turns
      dormant once the energy is 0; nothing else about it changes. */
  function Interact(e: Entity): (r: Entity)
    ensures r.energy >= 0
    ensures e.energy >= InteractionCost ==> r.energy == e.energy - InteractionCost
    ensures e.energy < InteractionCost ==> r.energy == 0
    ensures r.energy == 0 ==> r.status == Dormant
    ensures r.energy > 0 ==> r.status == e.status
    ensures e.status == Dormant ==> r.status == Dormant
    ensures r == e.(energy := r.energy, status := r.status)
  {
    var energy := Max(0, e.energy - InteractionCost);
    var status := if energy <= 0 then Dormant else e.status;
    e.(energy := energy, status := status)
  }

  /** Every interaction keeps an entity within its reachable states. */
  lemma InteractPreservesReachable(e: Entity)
    requires Reachable(e)
    ensures Reachable(Interact(e))
    ensures Interact(e).energy <= e.energy
  {
  }

  /** At the floor an interaction changes nothing. */
  lemma InteractIdempotentAtFloor(e: Entity)
    requires Reachable(e) && e.energy == 0
    ensures Interact(e) == e
  {
  }

  /** `n` interactions in a row. */
  function InteractTimes(e: Entity, n: nat): Entity
    decreases n
  {
    if n == 0 then e else Interact(InteractTimes(e, n - 1))
  }

  /** After `n` interactions the energy is what was left of it less 10 per
      interaction, floored at 0, and the rest of the entity is as it was. */
  lemma {:induction false} InteractTimesEnergy(e: Entity, n: nat)
    requires e.energy >= 0
    ensures InteractTimes(e, n).energy == Max(0, e.energy - InteractionCost * n)
    ensures InteractTimes(e, n) == e.(energy := InteractTimes(e, n).energy, status := InteractTimes(e, n).status)
    decreases n
  {
    if n > 0 {
      InteractTimesEnergy(e, n - 1);
    }
  }

  /** Energy never increases along a run of interactions. */
  lemma InteractTimesMonotone(e: Entity, m: nat, n: nat)
    requires e.energy >= 0 && m <= n
    ensures InteractTimes(e, n).energy <= InteractTimes(e, m).energy
  {
    InteractTimesEnergy(e, m);
    InteractTimesEnergy(e, n);
  }

  /** Every entity reached from construction by interactions is reachable:
      its energy stays in [0, 100] and it is dormant exactly at energy 0. */
  lemma {:induction false} InteractTimesReachable(e: Entity, n: nat)
    requires Reachable(e)
    ensures Reachable(InteractTimes(e, n))
    decreases n
  {
    if n > 0 {
      InteractTimesReachable(e, n - 1);
      InteractPreservesReachable(InteractTimes(e, n - 1));
    }
  }

  /** Once dormant, an entity stays dormant however often it is touched. */
  lemma {:induction false} DormantForever(e: Entity, n: nat)
    requires e.status == Dormant
    ensures InteractTimes(e, n).status == Dormant
    decreases n
  {
    if n > 0 {
      DormantForever(e, n - 1);
    }
  }

  /** Ten interactions put a fresh entity to sleep, and an eleventh changes nothing. */
  lemma TenInteractionsExhaust(id: string, name: string, code: string, t: int, p: Position)
    ensures InteractTimes(New(id, name, code, t, p), 9).status == Active
    ensures InteractTimes(New(id, name, code, t, p), 10).energy == 0
    ensures InteractTimes(New(id, name, code, t, p), 10).status == Dormant
    ensures InteractTimes(New(id, name, code, t, p), 11) == InteractTimes(New(id, name, code, t, p), 10)
  {
    var e := New(id, name, code, t, p);
    InteractTimesEnergy(e, 9);
    InteractTimesEnergy(e, 10);
    InteractTimesReachable(e, 9);
    InteractTimesReachable(e, 10);
    InteractIdempotentAtFloor(InteractTimes(e, 10));
  }

  const PlotMarker: string := "plt.show()"
  const StreamlitMarker: string := "st."
  const CodeKeywords: seq<string> := ["def ", "class ", "import "]

  predicate HasCodeKeyword(code: string) {
    exists k :: k in CodeKeywords && Contains(code, k)
  }

  /** `generate_visualization`'s classification of an entity's code. */
  function Classify(code: string): (v: Visualization)
    ensures v == Matplotlib <==> Contains(code, PlotMarker)
    ensures v == Streamlit <==> !Contains(code, PlotMarker) && Contains(code, StreamlitMarker)
    ensures v == Codigo <==> !Contains(code, PlotMarker) && !Contains(code, StreamlitMarker) && HasCodeKeyword(code)
    ensures v == Texto <==> !Contains(code, PlotMarker) && !Contains(code, StreamlitMarker) && !HasCodeKeyword(code)
  {
    if Contains(code, PlotMarker) then Matplotlib
    else if Contains(code, StreamlitMarker) then Streamlit
    else if Contains(code, CodeKeywords[0]) || Contains(code, CodeKeywords[1]) || Contains(code, CodeKeywords[2]) then Codigo
    else Texto
  }

  /** `generate_visualization`: sets the tag from the code and changes nothing else. */
  function GenerateVisualization(e: Entity): (r: Entity)
    ensures r.visualization == Some(Classify(e.code))
    ensures r.(visualization := e.visualization) == e
  {
    e.(visualization := Some(Classify(e.code)))
  }

  /** The priority of a tag in the classifier's order. */
  function Rank(v: Visualization): nat {
    match v
    case Texto => 0
    case Codigo => 1
    case Streamlit => 2
    case Matplotlib => 3
  }

  /** The classifier is monotone under concatenation: joining two pieces of
      code never yields a lower-priority tag than either piece alone. */
  lemma ClassifyConcatMonotone(a: string, b: string)
    ensures Rank(Classify(a + b)) >= Rank(Classify(a))
    ensures Rank(Classify(a + b)) >= Rank(Classify(b))
  {
    forall p | Contains(a, p) ensures Contains(a + b, p) {
      ContainsAppendRight(a, b, p);
    }
    forall p | Contains(b, p) ensures Contains(a + b, p) {
      ContainsAppendLeft(a, b, p);
    }
  }

  /** Empty code is classified as text. */
  lemma EmptyCodeIsText()
    ensures Classify("") == Texto
  {
  }

  /** A plotting call wins whatever else the code contains. */
  lemma PlotWins(a: string, b: string)
    ensures Classify(a + PlotMarker + b) == Matplotlib
  {
    assert StartsWith(PlotMarker + b, PlotMarker);
    ContainsAppendLeft(a, PlotMarker + b, PlotMarker);
    assert a + PlotMarker + b == a + (PlotMarker + b);
  }
}
