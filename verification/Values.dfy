/** Runtime values, the evaluation scope and the records of a snapshot. */
module Values {
  import opened Wrappers

  // `Value` is what flows through extraction. An IndexMap is a sequence of
  // pairs; a compiled regex is its source text.
  datatype Value =
    | Null
    | Bool(b: bool)
    | Int(n: int)
    | Double(d: real)
    | Str(s: string)
    | Arr(items: seq<Value>)
    | Obj(fields: seq<(string, Value)>)
    | Node(html: string)
    | NodeList(nodes: seq<string>)
    | Ref(targetType: string, id: string)
    | Regex(pattern: string, flags: string)

  datatype RefTo = RefTo(targetType: string, id: string)

  /** Every typed reference that occurs anywhere inside a value. */
  ghost function Refs(v: Value): set<RefTo> {
    match v
    case Ref(t, id) => {RefTo(t, id)}
    case Arr(xs) => set x, r | x in xs && r in Refs(x) :: r
    case Obj(fs) => set f, r | f in fs && r in Refs(f.1) :: r
    case _ => {}
  }

  ghost function MapRefs(m: map<string, Value>): set<RefTo> {
    set k, r | k in m && r in Refs(m[k]) :: r
  }

  type Frame = map<string, Value>

  datatype RawScope = RawScope(
    frames: seq<Frame>,
    inputs: Frame,
    secrets: map<string, string>,
    current: Option<Value>)
  {
    ghost function AllRefs(): set<RefTo> {
      (set f, r | f in frames && r in MapRefs(f) :: r)
      + MapRefs(inputs)
      + (if current.Some? then Refs(current.value) else {})
    }
  }

  // A scope always has its outermost frame.
  type Scope = s: RawScope | |s.frames| >= 1
    witness RawScope([map[]], map[], map[], None)

  function PushFrame(s: Scope): Scope {
    s.(frames := s.frames + [map[]])
  }

  function PopFrame(s: Scope): Scope {
    if |s.frames| > 1 then s.(frames := s.frames[..|s.frames| - 1]) else s
  }

  function Bind(s: Scope, name: string, v: Value): Scope {
    s.(frames := s.frames[|s.frames| - 1 := s.frames[|s.frames| - 1][name := v]])
  }

  /** What a variable of the scope means: the innermost frame that has it decides. */
  function Visible(frames: seq<Frame>, name: string): Option<Value> {
    if frames == [] then None
    else if name in frames[|frames| - 1] then Some(frames[|frames| - 1][name])
    else Visible(frames[..|frames| - 1], name)
  }

  // `t` is `s` with one more variable, or one changed, as every lookup sees it; the outer frames stay.
  ghost predicate Binds(s: Scope, name: string, v: Value, t: Scope) {
    && t.inputs == s.inputs && t.secrets == s.secrets && t.current == s.current
    && |t.frames| == |s.frames| && t.frames[..|t.frames| - 1] == s.frames[..|s.frames| - 1]
    && forall k :: Visible(t.frames, k) == if k == name then Some(v) else Visible(s.frames, k)
  }

  lemma {:induction false} BindBinds(s: Scope, name: string, v: Value)
    ensures Binds(s, name, v, Bind(s, name, v))
  {
    var t := Bind(s, name, v);
    assert t.frames[..|t.frames| - 1] == s.frames[..|s.frames| - 1];
  }

  function WithCurrent(s: Scope, v: Option<Value>): Scope {
    s.(current := v)
  }

  datatype Record = Record(id: string, typeName: string, fields: map<string, Value>)

  /** Decimal rendering of a natural number. */
  function Decimal(n: nat): string {
    if n < 10 then [Digit(n)] else Decimal(n / 10) + [Digit(n % 10)]
  }

  function Digit(n: nat): char
    requires n < 10
  {
    "0123456789"[n]
  }

  lemma {:induction false} DecimalInjective(a: nat, b: nat)
    requires Decimal(a) == Decimal(b)
    ensures a == b
  {
    var x, y := Decimal(a), Decimal(b);
    assert x[|x| - 1] == Digit(a % 10) && y[|y| - 1] == Digit(b % 10);
    DigitInjective(a % 10, b % 10);
    assert a >= 10 ==> |Decimal(a / 10)| >= 1;
    assert b >= 10 ==> |Decimal(b / 10)| >= 1;
    if a >= 10 && b >= 10 {
      assert x[..|x| - 1] == Decimal(a / 10) && y[..|y| - 1] == Decimal(b / 10);
      DecimalInjective(a / 10, b / 10);
    }
  }

  lemma {:induction false} DigitInjective(a: nat, b: nat)
    requires a < 10 && b < 10 && Digit(a) == Digit(b)
    ensures a == b
  {
  }

  /** The id the engine gives to the n-th emitted record. */
  function RecordId(n: nat): string {
    "rec-" + Decimal(n)
  }

  lemma {:induction false} RecordIdInjective(a: nat, b: nat)
    requires RecordId(a) == RecordId(b)
    ensures a == b
  {
    assert RecordId(a)[4..] == Decimal(a) && RecordId(b)[4..] == Decimal(b);
    DecimalInjective(a, b);
  }

  /** The references that a list of records can back. */
  ghost function Known(records: seq<Record>): set<RefTo> {
    set r | r in records :: RefTo(r.typeName, r.id)
  }

  function CountByType(records: seq<Record>, typeName: string): nat {
    if records == [] then 0
    else CountByType(records[..|records| - 1], typeName)
         + (if records[|records| - 1].typeName == typeName then 1 else 0)
  }

  lemma {:induction false} BindRefs(s: Scope, name: string, v: Value)
    ensures Bind(s, name, v).AllRefs() <= s.AllRefs() + Refs(v)
  {
    var last := |s.frames| - 1;
    var t := Bind(s, name, v);
    forall r | r in t.AllRefs() ensures r in s.AllRefs() + Refs(v) {
      if f :| f in t.frames && r in MapRefs(f) {
        var k :| k in f && r in Refs(f[k]);
        if f !in s.frames {
          assert f == s.frames[last][name := v];
          assert s.frames[last] in s.frames;
          if k != name {
            assert r in MapRefs(s.frames[last]);
          }
        }
      }
    }
  }

  lemma {:induction false} PushRefs(s: Scope)
    ensures PushFrame(s).AllRefs() <= s.AllRefs()
  {
    var t := PushFrame(s);
    forall f | f in t.frames ensures f in s.frames || f == map[] {
    }
  }
}
