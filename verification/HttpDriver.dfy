/** One stage on the HTTP engine: upstream records into their input slot, then a run. */
module HttpDriver {
  import opened Wrappers
  import opened Values
  import opened Recipe
  import opened Engine
  import opened EngineInvariants
  import opened Runtime

  datatype FieldType = RecordType(name: string) | ArrayType(inner: FieldType) | OtherType

  datatype InputDecl = InputDecl(name: string, ty: FieldType)

  /** The first declaration of a type. */
  function Slot(decls: seq<InputDecl>, ty: FieldType): Option<InputDecl> {
    if decls == [] then None else if decls[0].ty == ty then Some(decls[0]) else Slot(decls[1..], ty)
  }

  method FindSlot(decls: seq<InputDecl>, ty: FieldType) returns (slot: Option<InputDecl>)
    ensures slot == Slot(decls, ty)
    ensures slot.Some? <==> exists d :: d in decls && d.ty == ty
  {
    var i := 0;
    while i < |decls|
      invariant 0 <= i <= |decls|
      invariant Slot(decls, ty) == Slot(decls[i..], ty)
      invariant forall j | 0 <= j < i :: decls[j].ty != ty
    {
      assert decls[i..][1..] == decls[i + 1..];
      if decls[i].ty == ty {
        return Some(decls[i]);
      }
      i := i + 1;
    }
    return None;
  }

  function AsValues(records: seq<Record>, asValue: Record -> Value): (values: seq<Value>)
    ensures |values| == |records| && forall i | 0 <= i < |values| :: values[i] == asValue(records[i])
  {
    seq(|records|, i requires 0 <= i < |records| => asValue(records[i]))
  }

  // A batch slot takes every record in order, before any single slot; a single slot takes at most one; no slot
  // is an error.
  function Bound(decls: seq<InputDecl>, prior: PriorRecords, inputs: Frame,
                 asValue: Record -> Value): Result<Frame, HttpError> {
    var batch, single := Slot(decls, ArrayType(RecordType(prior.typeName))), Slot(decls, RecordType(prior.typeName));
    if batch.Some? then Ok(inputs[batch.value.name := Arr(AsValues(prior.records, asValue))])
    else if single.None? then Err(Generic("no input slot for the upstream type"))
    else if |prior.records| > 1 then Err(Generic("single input, several upstream records"))
    else Ok(if prior.records == [] then inputs else inputs[single.value.name := asValue(prior.records[0])])
  }

  method BindPriorRecords(decls: seq<InputDecl>, prior: PriorRecords, inputs: Frame, asValue: Record -> Value)
    returns (r: Result<Frame, HttpError>)
    ensures r == Bound(decls, prior, inputs, asValue)
    ensures r.Ok? && prior.records != [] ==> Delivered(decls, prior, inputs, r.value, asValue)
    ensures r.Err? <==> NoRoom(decls, prior)
  {
    BoundFailsIff(decls, prior, inputs, asValue);
    if prior.records != [] && Bound(decls, prior, inputs, asValue).Ok? {
      NoRecordIsDropped(decls, prior, inputs, asValue);
    }
    hide Delivered;
    var batched := FindSlot(decls, ArrayType(RecordType(prior.typeName)));
    if batched.Some? {
      return Ok(inputs[batched.value.name := Arr(AsValues(prior.records, asValue))]);
    }
    var single := FindSlot(decls, RecordType(prior.typeName));
    if single.Some? {
      if |prior.records| == 0 {
        return Ok(inputs);
      }
      if |prior.records| > 1 {
        return Err(Generic("single input, several upstream records"));
      }
      return Ok(inputs[single.value.name := asValue(prior.records[0])]);
    }
    return Err(Generic("no input slot for the upstream type"));
  }

  // Upstream records never vanish: they are all, in order, in one input declared as a list of their type, or the only
  // one is in an input declared as that type; and every other input is as it was.
  ghost predicate Delivered(decls: seq<InputDecl>, prior: PriorRecords, inputs: Frame, frame: Frame,
                            asValue: Record -> Value) {
    if prior.records == [] then frame == inputs
    else exists name | name in frame ::
      && (forall k | k != name :: k in frame <==> k in inputs)
      && (forall k | k in inputs && k != name :: frame[k] == inputs[k])
      && (BatchOf(decls, prior, frame, name, asValue) || SingleOf(decls, prior, frame, name, asValue))
  }

  ghost predicate BatchOf(decls: seq<InputDecl>, prior: PriorRecords, frame: Frame, name: string,
                          asValue: Record -> Value)
    requires name in frame
  {
    && InputDecl(name, ArrayType(RecordType(prior.typeName))) in decls
    && frame[name].Arr? && |frame[name].items| == |prior.records|
    && forall i | 0 <= i < |prior.records| :: frame[name].items[i] == asValue(prior.records[i])
  }

  ghost predicate SingleOf(decls: seq<InputDecl>, prior: PriorRecords, frame: Frame, name: string,
                           asValue: Record -> Value)
    requires name in frame
  {
    && (forall d | d in decls :: d.ty != ArrayType(RecordType(prior.typeName)))
    && InputDecl(name, RecordType(prior.typeName)) in decls
    && |prior.records| == 1 && frame[name] == asValue(prior.records[0])
  }

  lemma {:induction false} SlotIsFirst(decls: seq<InputDecl>, ty: FieldType)
    ensures match Slot(decls, ty)
            case None => forall d | d in decls :: d.ty != ty
            case Some(d) =>
              exists i :: 0 <= i < |decls| && decls[i] == d && d.ty == ty && forall j | 0 <= j < i :: decls[j].ty != ty
  {
    if decls != [] && decls[0].ty != ty {
      SlotIsFirst(decls[1..], ty);
      match Slot(decls[1..], ty) {
        case Some(d) =>
          var i :| 0 <= i < |decls| - 1 && decls[1..][i] == d && d.ty == ty
            && forall j | 0 <= j < i :: decls[1..][j].ty != ty;
          assert decls[i + 1] == d;
          forall j | 0 <= j < i + 1 ensures decls[j].ty != ty {
            if j > 0 { assert decls[1..][j - 1] == decls[j]; }
          }
        case None =>
          forall d | d in decls ensures d.ty != ty {
            assert d == decls[0] || d in decls[1..];
          }
      }
    }
  }

  /** No input takes a list of the upstream records, and either none takes one alone or there are several. */
  ghost predicate NoRoom(decls: seq<InputDecl>, prior: PriorRecords) {
    && (forall d | d in decls :: d.ty != ArrayType(RecordType(prior.typeName)))
    && (|prior.records| > 1 || forall d | d in decls :: d.ty != RecordType(prior.typeName))
  }

  lemma {:induction false} BoundFailsIff(decls: seq<InputDecl>, prior: PriorRecords, inputs: Frame,
                                         asValue: Record -> Value)
    ensures Bound(decls, prior, inputs, asValue).Err? <==> NoRoom(decls, prior)
  {
    SlotIsFirst(decls, ArrayType(RecordType(prior.typeName)));
    SlotIsFirst(decls, RecordType(prior.typeName));
  }

  lemma {:induction false} NoRecordIsDropped(decls: seq<InputDecl>, prior: PriorRecords, inputs: Frame,
                                             asValue: Record -> Value)
    requires prior.records != [] && Bound(decls, prior, inputs, asValue).Ok?
    ensures Delivered(decls, prior, inputs, Bound(decls, prior, inputs, asValue).value, asValue)
  {
    var batch, single := Slot(decls, ArrayType(RecordType(prior.typeName))), Slot(decls, RecordType(prior.typeName));
    SlotIsFirst(decls, ArrayType(RecordType(prior.typeName)));
    SlotIsFirst(decls, RecordType(prior.typeName));
    var name := if batch.Some? then batch.value.name else single.value.name;
    var frame := Bound(decls, prior, inputs, asValue).value;
    assert name in frame;
    assert BatchOf(decls, prior, frame, name, asValue) || SingleOf(decls, prior, frame, name, asValue);
  }

  /** The session login, then the statements: the engine's entry point. */
  method RunInner(cfg: Config, body: seq<Statement>, inputs: Frame, secrets: map<string, string>, limit: Option<nat>)
    returns (o: Outcome)
    ensures o == Engine.RunRecipe(cfg, body, inputs, secrets, limit)
  {
    var st := InitialState(inputs, secrets);
    ghost var ask := replies => cfg.ev.login(st.scope, replies);
    var history: seq<Fetch> := [];
    var replies: Replies := [];
    var left := 1;
    var token: Value := Null;
    while true
      invariant 0 <= left
      invariant Drive(cfg.transport, ask, 1, [], []) == Drive(cfg.transport, ask, left, replies, history)
      decreases left
    {
      match cfg.ev.login(st.scope, replies) {
        case Produce(v) =>
          token := v;
          break;
        case Raise(e) => return Outcome(Failed(e), st.(history := history));
        case Send(req) =>
          if left == 0 {
            return Outcome(Failed(EvalFailed("too many fetches")), st.(history := history));
          }
          var got := cfg.transport(history, req);
          history := history + [Fetch(Other, req, got)];
          replies := replies + [ViewResult(got)];
          left := left - 1;
      }
    }
    var engine := new Interpreter(cfg, token, limit, st.(history := history));
    var status := engine.Statements(body, true);
    o := Outcome(status, engine.Now());
  }

  // A stage binds the records of the stage before it, if there are any, and runs. Its result, and its fetches.
  function Stage(cfg: Config, decls: seq<InputDecl>, body: seq<Statement>, inputs: Frame, prior: PriorRecords,
                 secrets: map<string, string>, limit: Option<nat>, asValue: Record -> Value):
    (Result<Snapshot, HttpError>, seq<Fetch>)
  {
    match (if prior.records == [] then Ok(inputs) else Bound(decls, prior, inputs, asValue))
    case Err(e) => (Err(e), [])
    case Ok(frame) =>
      var o := Engine.RunRecipe(cfg, body, frame, secrets, limit);
      (if o.status.Failed? then Err(o.status.error) else Ok(o.st.records), o.st.history)
  }

  method RunStage(cfg: Config, decls: seq<InputDecl>, body: seq<Statement>, inputs: Frame, prior: PriorRecords,
                  secrets: map<string, string>, limit: Option<nat>, asValue: Record -> Value)
    returns (r: Result<Snapshot, HttpError>)
    ensures r == Stage(cfg, decls, body, inputs, prior, secrets, limit, asValue).0
  {
    var frame := inputs;
    if prior.records != [] {
      var bound := BindPriorRecords(decls, prior, inputs, asValue);
      if bound.Err? {
        return Err(bound.error);
      }
      frame := bound.value;
    }
    var o := RunInner(cfg, body, frame, secrets, limit);
    if o.status.Failed? {
      return Err(o.status.error);
    }
    return Ok(o.st.records);
  }

  // A stage with records that have no room fails before it fetches anything. Any other stage runs, with all upstream
  // records in one input and its other inputs as given; it ends as that run does, and its snapshot is that run's
  // records, numbered from the first, each reference in it naming an earlier record or one that came with the inputs.
  lemma {:induction false} StageDelivers(cfg: Config, decls: seq<InputDecl>, body: seq<Statement>, inputs: Frame,
                                         prior: PriorRecords, secrets: map<string, string>, limit: Option<nat>,
                                         asValue: Record -> Value)
    requires NoInventedRefs(cfg.ev)
    ensures var (r, h) := Stage(cfg, decls, body, inputs, prior, secrets, limit, asValue);
      if prior.records != [] && NoRoom(decls, prior) then r.Err? && h == []
      else
        exists frame | Delivered(decls, prior, inputs, frame, asValue) ::
          var o := Engine.RunRecipe(cfg, body, frame, secrets, limit);
          && h == o.st.history && Genuine(cfg.transport, h)
          && (match o.status
              case Fine => r == Ok(o.st.records) && RecordsSound(r.value, o.st.counts, MapRefs(frame))
              case Failed(e) => r == Err(e))
  {
    BoundFailsIff(decls, prior, inputs, asValue);
    assert prior.records == [] ==> Delivered(decls, prior, inputs, inputs, asValue);
    hide NoRoom, Delivered, Bound, RecordsSound, Genuine, Engine.RunRecipe;
    if prior.records == [] {
      RunIsSound(cfg, body, inputs, secrets, limit);
      BudgetHolds(cfg, body, inputs, secrets, limit);
    } else {
      var bound := Bound(decls, prior, inputs, asValue);
      if bound.Ok? {
        NoRecordIsDropped(decls, prior, inputs, asValue);
        RunIsSound(cfg, body, bound.value, secrets, limit);
        BudgetHolds(cfg, body, bound.value, secrets, limit);
      }
    }
  }
}
