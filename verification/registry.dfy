/**
 The entity registry held in the session (`st.session_state.entities`): the
 validated insert of the entity creator form, the unchecked insert of the
 code runner's "save as entity" button, the interaction button, and the
 deferred-removal queue drained before the entity list is displayed.
 */
module Registry {
  import opened Wrappers
  import opened Text
  import opened Entity

  type Entities = map<string, Entity>

  /** The status line kept in `last_interaction`; each variant stands for one
      of the page's formatted messages. */
  datatype Message =
    | Created(name: string)
    | Interacted(name: string, energyLeft: int)
    | Removed(name: string)
    | SavedApp(name: string)
    | MatrixReset

  /** Why the entity creator refused its input. */
  datatype Rejection = BlankName | ReservedMetadata

  /** Every entity is stored under its own id. */
  ghost predicate WellKeyed(m: Entities) {
    forall k :: k in m ==> m[k].id == k
  }

  ghost predicate AllReachable(m: Entities) {
    forall k :: k in m ==> Reachable(m[k])
  }

  ghost predicate Valid(m: Entities) {
    WellKeyed(m) && AllReachable(m)
  }

  const MetadataMarker: string := "ID:"

  /** `code and any(line.startswith("ID:") for line in code.splitlines())`. */
  predicate HasReservedLine(code: string) {
    code != [] && SomeLineStartsWith(code, MetadataMarker)
  }

  /** The entity the creator builds: constructed, then classified. */
  function Build(id: string, name: string, code: string, createdAt: int, position: Position): (e: Entity)
    ensures Reachable(e) && e.energy == InitialEnergy && e.status == Active && e.id == id
    ensures e.code == code && e.visualization == Some(Classify(code))
    ensures Strip(name) != [] ==> e.name == Strip(name)
  {
    GenerateVisualization(New(id, name, code, createdAt, position))
  }

  datatype Inserted = Inserted(entities: Entities, message: Message)

  /** `m[id] = e` for an id not yet present: one key more, every other entry kept. */
  function Insert(m: Entities, id: string, e: Entity): (r: Entities)
    requires id !in m
    ensures r.Keys == m.Keys + {id}
    ensures forall k :: k in m ==> k in r && r[k] == m[k]
    ensures id in r && r[id] == e
  {
    m[id := e]
  }

  /** The two checks of the entity creator, in the order they are made: a
      blank name first, then a line of code starting with `ID:`. */
  function Validate(name: string, code: string): (r: Option<Rejection>)
    ensures Strip(name) == [] ==> r == Some(BlankName)
    ensures Strip(name) != [] && HasReservedLine(code) ==> r == Some(ReservedMetadata)
    ensures r == None <==> Strip(name) != [] && !HasReservedLine(code)
  {
    if Strip(name) == [] then Some(BlankName)
    else if HasReservedLine(code) then Some(ReservedMetadata)
    else None
  }

  /** The checks accept exactly the names that are not all whitespace and
      the code in which `ID:` does not occur at the start of a line. */
  lemma ValidateAcceptsIff(name: string, code: string)
    ensures Validate(name, code) == None <==> !AllSpace(name) && !PrefixAtLineStart(code, MetadataMarker)
  {
    StripEmptyIff(name);
    ReservedIff(code);
  }

  /** The `ID:` check holds exactly when the marker sits at a line start. */
  lemma ReservedIff(code: string)
    ensures HasReservedLine(code) <==> PrefixAtLineStart(code, MetadataMarker)
  {
    SomeLineStartsWithIff(code, MetadataMarker);
    if code == [] {
      assert !PrefixAtLineStart(code, MetadataMarker) by {
        forall i | LineStart(code, i) ensures !StartsWith(code[i..], MetadataMarker) {
        }
      }
    }
  }

  /** The submit branch of `show_entity_creator`. Refused input leaves the
      registry alone; otherwise exactly one new entity, full of energy and
      active, is stored under the fresh id and every other entry is left as
      it was. The fresh id stands in for `uuid4`. */
  function CreateEntity(m: Entities, name: string, code: string, id: string, createdAt: int, position: Position)
    : (r: Result<Inserted, Rejection>)
    requires id !in m
    ensures r.Err? <==> Validate(name, code).Some?
    ensures r.Err? ==> r.error == Validate(name, code).value
    ensures r.Ok? ==> r.value.entities.Keys == m.Keys + {id}
    ensures r.Ok? ==> forall k :: k in m ==> k in r.value.entities && r.value.entities[k] == m[k]
    ensures r.Ok? ==> id in r.value.entities && var e := r.value.entities[id];
      && e.energy == InitialEnergy && e.status == Active && e.id == id
      && e.name == Strip(name) && e.code == code && e.visualization == Some(Classify(code))
      && r.value.message == Created(e.name)
  {
    match Validate(name, code)
    case Some(why) => Err(why)
    case None =>
      var e := Build(id, name, code, createdAt, position);
      Ok(Inserted(Insert(m, id, e), Created(e.name)))
  }

  /** Accepted input yields the insert of the built entity. */
  lemma CreateEntityAccepted(m: Entities, name: string, code: string, id: string, t: int, p: Position)
    requires id !in m && Validate(name, code) == None
    ensures CreateEntity(m, name, code, id, t, p) == Ok(Inserted(Insert(m, id, Build(id, name, code, t, p)), Created(Build(id, name, code, t, p).name)))
  {
  }

  /** A successful creation keeps the registry valid. */
  lemma CreatePreservesValid(m: Entities, name: string, code: string, id: string, t: int, p: Position)
    requires id !in m && Valid(m)
    ensures CreateEntity(m, name, code, id, t, p).Ok? ==> Valid(CreateEntity(m, name, code, id, t, p).value.entities)
  {
  }

  /** An empty name is refused, whatever the code. */
  lemma EmptyNameRefused()
    ensures Validate("", "x=1") == Some(BlankName)
  {
  }

  /** The name the literal scenarios use is its own strip. */
  lemma BotIsNotBlank()
    ensures Strip("Bot") == "Bot"
  {
    StripKeepsTrimmed("Bot");
  }

  /** A line that starts with the marker is refused. */
  lemma MarkerLineRefused()
    ensures Validate("Bot", "ID: 123\nprint(1)") == Some(ReservedMetadata)
  {
    BotIsNotBlank();
    FirstLineReserved();
  }

  lemma FirstLineReserved()
    ensures HasReservedLine("ID: 123\nprint(1)")
  {
    var c := "ID: 123\nprint(1)";
    assert c[0..][..3] == MetadataMarker;
    PositionToLine(c, MetadataMarker, 0);
  }

  /** The marker is found on a later line too. */
  lemma MarkerLaterLineRefused()
    ensures Validate("Bot", "x = 1\nID: 2") == Some(ReservedMetadata)
  {
    BotIsNotBlank();
    SecondLineReserved();
  }

  lemma SecondLineReserved()
    ensures HasReservedLine("x = 1\nID: 2")
  {
    var c := "x = 1\nID: 2";
    assert c[6..][..3] == MetadataMarker;
    assert LineStart(c, 6);
    PositionToLine(c, MetadataMarker, 6);
  }

  /** A marker behind a leading space is not at a line start, so it is accepted. */
  lemma IndentedMarkerAccepted()
    ensures Validate("Bot", " ID: 1") == None
  {
    BotIsNotBlank();
    IndentedNotReserved();
  }

  lemma IndentedNotReserved()
    ensures !HasReservedLine(" ID: 1")
  {
    var c := " ID: 1";
    forall i | 0 <= i <= |c| ensures !(LineStart(c, i) && StartsWith(c[i..], MetadataMarker)) {
      if i == 0 {
        assert c[0..][0] == ' ';
      } else {
        assert !IsLineBreak(c[i - 1]);
      }
    }
    SomeLineStartsWithIff(c, MetadataMarker);
  }

  /** The "save as entity" button of the code runner: the entity is built and
      stored under the fresh id with no validation of its code. */
  function SaveAsEntity(m: Entities, name: string, code: string, id: string, createdAt: int, position: Position)
    : (r: Inserted)
    requires id !in m
    ensures r.entities.Keys == m.Keys + {id}
    ensures forall k :: k in m ==> k in r.entities && r.entities[k] == m[k]
    ensures id in r.entities && r.entities[id].code == code && r.entities[id].status == Active
    ensures id in r.entities && r.entities[id].id == id && r.entities[id].energy == InitialEnergy
    ensures id in r.entities && r.entities[id].visualization == Some(Classify(code))
    ensures id in r.entities && (Strip(name) != [] ==> r.entities[id].name == Strip(name))
    ensures id in r.entities && r.message == SavedApp(r.entities[id].name)
  {
    var e := Build(id, name, code, createdAt, position);
    Inserted(Insert(m, id, e), SavedApp(e.name))
  }

  /** Saving from the code runner keeps the registry valid, and it stores code
      that the entity creator would have refused. */
  lemma SaveSkipsMetadataCheck(m: Entities, name: string, code: string, id: string, t: int, p: Position)
    requires id !in m && Valid(m)
    ensures Valid(SaveAsEntity(m, name, code, id, t, p).entities)
    ensures HasReservedLine(code) ==> SaveAsEntity(m, name, code, id, t, p).entities[id].code == code
  {
    var r := SaveAsEntity(m, name, code, id, t, p).entities;
    forall k | k in r ensures r[k].id == k && Reachable(r[k]) {
      if k != id {
        assert k in m;
      }
    }
  }

  /** The interaction button: the entity loses energy and the message reports
      what is left; an id no longer present does nothing. */
  function InteractWith(m: Entities, id: string): (r: (Entities, Option<Message>))
    ensures id !in m ==> r == (m, None)
    ensures id in m ==> r.0 == m[id := Interact(m[id])]
    ensures id in m ==> r.1 == Some(Interacted(m[id].name, Interact(m[id]).energy))
  {
    if id !in m then (m, None)
    else
      var e := Interact(m[id]);
      (m[id := e], Some(Interacted(e.name, e.energy)))
  }

  /** Interacting keeps the registry valid, keeps its keys, and drains only
      the chosen entity. */
  lemma InteractPreservesValid(m: Entities, id: string)
    requires Valid(m)
    ensures Valid(InteractWith(m, id).0)
    ensures InteractWith(m, id).0.Keys == m.Keys
    ensures forall k :: k in m && k != id ==> InteractWith(m, id).0[k] == m[k]
    ensures id in m ==> InteractWith(m, id).0[id].energy <= m[id].energy
  {
    if id in m {
      InteractPreservesReachable(m[id]);
    }
  }

  /** The removal commands `pop(eid, None)` applied in queue order. */
  function ApplyRemovals(m: Entities, q: seq<string>): Entities
    decreases |q|
  {
    if q == [] then m else ApplyRemovals(m - {q[0]}, q[1..])
  }

  /** The ids named in a queue. */
  function Ids(q: seq<string>): set<string> {
    set i | 0 <= i < |q| :: q[i]
  }

  /** Draining a queue removes exactly the ids it names and leaves every other entry. */
  lemma {:induction false} ApplyRemovalsIsDifference(m: Entities, q: seq<string>)
    ensures ApplyRemovals(m, q) == m - Ids(q)
    decreases |q|
  {
    if q != [] {
      ApplyRemovalsIsDifference(m - {q[0]}, q[1..]);
      assert Ids(q) == {q[0]} + Ids(q[1..]) by {
        forall x | x in Ids(q) ensures x in {q[0]} + Ids(q[1..]) {
          var i :| 0 <= i < |q| && q[i] == x;
          if i > 0 {
            assert q[1..][i - 1] == x;
          }
        }
        forall x | x in Ids(q[1..]) ensures x in Ids(q) {
          var i :| 0 <= i < |q| - 1 && q[1..][i] == x;
          assert q[i + 1] == x;
        }
      }
    }
  }

  /** `process_pending_operations`: pops commands from the front of the queue
      until it is empty. */
  method Drain(m: Entities, q: seq<string>) returns (r: Entities, rest: seq<string>)
    ensures rest == []
    ensures r == ApplyRemovals(m, q)
    ensures r.Keys == m.Keys - Ids(q)
    ensures forall k :: k in r ==> r[k] == m[k]
  {
    r, rest := m, q;
    while rest != []
      invariant ApplyRemovals(r, rest) == ApplyRemovals(m, q)
      decreases |rest|
    {
      var id := rest[0];
      rest := rest[1..];
      r := r - {id};
    }
    ApplyRemovalsIsDifference(m, q);
  }

  /** Removing an id that is not present is a no-op. */
  lemma RemoveAbsentIsNoop(m: Entities, id: string)
    requires id !in m
    ensures ApplyRemovals(m, [id]) == m
  {
    ApplyRemovalsIsDifference(m, [id]);
  }

  /** Queuing the same id twice is the same as queuing it once. */
  lemma DuplicateRemovalIsOnce(m: Entities, a: seq<string>, id: string, b: seq<string>, c: seq<string>)
    ensures ApplyRemovals(m, a + [id] + b + [id] + c) == ApplyRemovals(m, a + [id] + b + c)
  {
    var q1 := a + [id] + b + [id] + c;
    var q2 := a + [id] + b + c;
    ApplyRemovalsIsDifference(m, q1);
    ApplyRemovalsIsDifference(m, q2);
    assert Ids(q1) == Ids(q2) by {
      forall x | x in Ids(q1) ensures x in Ids(q2) {
        var i :| 0 <= i < |q1| && q1[i] == x;
        if i < |a| + 1 + |b| {
          assert q2[i] == x;
        } else if i == |a| + 1 + |b| {
          assert q2[|a|] == x;
        } else {
          assert q2[i - 1] == x;
        }
      }
      forall x | x in Ids(q2) ensures x in Ids(q1) {
        var i :| 0 <= i < |q2| && q2[i] == x;
        if i < |a| + 1 + |b| {
          assert q1[i] == x;
        } else {
          assert q1[i + 1] == x;
        }
      }
    }
  }

  /** Draining keeps the registry valid. */
  lemma RemovalsPreserveValid(m: Entities, q: seq<string>)
    requires Valid(m)
    ensures Valid(ApplyRemovals(m, q))
  {
    ApplyRemovalsIsDifference(m, q);
  }
}
