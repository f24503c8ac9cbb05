/**
 What a write to the target list does, from its bytes: the operation by its number,
 the target by its record, and what becomes of the registry.
 */
module ListWrites {
  import opened Bytes
  import opened Tlv8
  import Tlv8Proofs
  import opened Targets
  import opened TargetProofs
  import TargetCodec
  import opened SavedTargets
  import opened Registry
  import opened RegistryProofs

  // ---------------------------------------------------------------- the bytes

  /** A write of this operation about no target. */
  function OrderBytes(code: byte): seq<byte> {
    [0x01, 0x01, code]
  }

  /** A write of this operation about `t`. */
  function RequestBytes(code: byte, t: Target): seq<byte>
    requires Printable(t)
  {
    [0x01, 0x01, code] + WireOf([Item(0x02, PrintTarget(t))])
  }

  lemma {:induction false} OrderIsItem(code: byte)
    ensures WireOf([Item(0x01, [code])]) == OrderBytes(code)
  {
    var items := [Item(0x01, [code])];
    var segment := Segment(0x01, [code]);
    var none: seq<Item> := [];
    assert items[1..] == none;
    assert Chunks(0x01, [code]) == [segment];
    assert Fragments(items) == [segment] + Fragments(none) == [segment];
    assert [segment][1..] == [];
    assert Wire([segment]) == [0x01, 1] + [code] + Wire([segment][1..]) == OrderBytes(code);
  }

  lemma {:induction false} OrderReads(code: byte)
    ensures DecodeMap(OrderBytes(code)).Ok?
    ensures var data := DecodeMap(OrderBytes(code)).value; 1 in data && data[1] == [code] && 2 !in data
  {
    var items := [Item(0x01, [code])];
    OrderIsItem(code);
    Tlv8Proofs.DecodeWire(items);
    Tlv8Proofs.DistinctTagsMeanThemselves(items, map[], None);
    assert items[0].tag == 1;
  }

  lemma {:induction false} RequestReads(code: byte, t: Target)
    requires Printable(t)
    ensures DecodeMap(RequestBytes(code, t)).Ok?
    ensures var data := DecodeMap(RequestBytes(code, t)).value;
            1 in data && data[1] == [code] && 2 in data && data[2] == PrintTarget(t)
  {
    var first, second := [Item(0x01, [code])], [Item(0x02, PrintTarget(t))];
    var items := first + second;
    OrderIsItem(code);
    TargetCodec.WireOfBoth(first, second);
    Tlv8Proofs.DecodeWire(items);
    Tlv8Proofs.DistinctTagsMeanThemselves(items, map[], None);
    assert items[0] == first[0] && items[1] == second[0];
  }

  // ---------------------------------------------------------------- what is admitted

  /** The operation behind a number. */
  predicate IsCode(code: int, operation: Operation) {
    match operation
    case Undefined => code == 0
    case ListAll => code == 1
    case Add => code == 2
    case Remove => code == 3
    case Reset => code == 4
    case Update => code == 5
  }

  /** The record that came with a write, if one did. */
  predicate IsConfig(data: map<byte, seq<byte>>, config: Option<Target>) {
    if 2 in data then config.Some? && ParseTarget(data[2]) == Ok(config.value) else config.None?
  }

  /**
   A write is admitted exactly when it comes from an administrator, is base64 of TLV8,
   names one of six operations in one byte, and its record, if any, is a target.
   */
  lemma {:induction false} AdmittedExactly(raw: Option<seq<byte>>, admin: bool, request: Request)
    ensures Admitted(raw, admin) == Ok(request) <==>
              && admin && raw.Some? && DecodeMap(raw.value).Ok?
              && var data := DecodeMap(raw.value).value;
                 && 1 in data && |data[1]| == 1 && IsCode(data[1][0], request.operation)
                 && IsConfig(data, request.config)
  {
    if raw.Some? && DecodeMap(raw.value).Ok? {
      CodesAre(DecodeMap(raw.value).value, request.operation);
      ConfigsAre(DecodeMap(raw.value).value, request.config);
    }
  }

  lemma {:induction false} CodesAre(data: map<byte, seq<byte>>, operation: Operation)
    ensures ParseOperation(data) == Ok(operation) <==> 1 in data && |data[1]| == 1 && IsCode(data[1][0], operation)
  {
  }

  lemma {:induction false} ConfigsAre(data: map<byte, seq<byte>>, config: Option<Target>)
    ensures ParseConfig(data) == Ok(config) <==> IsConfig(data, config)
  {
  }

  lemma {:induction false} OrderIsAdmitted(code: byte, operation: Operation)
    requires IsCode(code, operation)
    ensures Admitted(Some(OrderBytes(code)), true) == Ok(Request(operation, None))
  {
    OrderReads(code);
    AdmittedExactly(Some(OrderBytes(code)), true, Request(operation, None));
  }

  lemma {:induction false} RequestIsAdmitted(code: byte, operation: Operation, t: Target)
    requires IsCode(code, operation) && GoodTarget(t)
    ensures Admitted(Some(RequestBytes(code, t)), true) == Ok(Request(operation, Some(NormalTarget(t))))
  {
    RequestReads(code, t);
    TargetRoundTrip(t);
    AdmittedExactly(Some(RequestBytes(code, t)), true, Request(operation, Some(NormalTarget(t))));
  }

  // ---------------------------------------------------------------- what it does

  /** A write of an administrator. */
  function Written(s: State, bytes: seq<byte>): After {
    Apply(s, ListWrite(Some(bytes), true))
  }

  /** It was performed, and what is in the file is what is in memory. */
  predicate Performed(s: State, after: After, t: State) {
    && (after.outcome.Reply? || after.outcome.Unprintable?)
    && after.state == t.(saved := after.state.saved)
    && Load(after.state.saved) == KeptOf(t)
  }

  /** Performing an admitted request, and saving. */
  lemma {:induction false} WriteIsPerformed(s: State, bytes: seq<byte>, request: Request)
    requires Inv(s) && Admitted(Some(bytes), true) == Ok(request)
    ensures match Perform(s, request)
            case Ok(t) => Performed(s, Written(s, bytes), t)
            case Err(e) => Written(s, bytes) == After(s, Rejected(e))
  {
    StepKeeps(s, ListWrite(Some(bytes), true));
  }

  /** Operation 2: the target is registered, and selected if none was; only an eleventh is refused. */
  lemma {:induction false} AddByBytes(s: State, t: Target)
    requires Inv(s) && GoodTarget(t)
    ensures var r := Written(s, RequestBytes(2, t));
            if t.identifier !in s.targets && |s.targets| >= 10 then r == After(s, Rejected(Full))
            else Performed(s, r, s.(targets := s.targets[t.identifier := NormalTarget(t)],
                                    active := if s.active == 0 then t.identifier else s.active))
  {
    RequestIsAdmitted(2, Add, t);
    WriteIsPerformed(s, RequestBytes(2, t), Request(Add, Some(NormalTarget(t))));
  }

  /** `u` is `was` with what `t` says put over it. */
  ghost predicate Overlays(u: Target, was: Target, t: Target) {
    && u.identifier == was.identifier
    && u.name == (if t.name.Some? then t.name else was.name)
    && u.category == (if t.category.Some? then t.category else was.category)
    && (forall k :: k in u.buttons <==> k in was.buttons || k in t.buttons)
    && (forall k | k in t.buttons :: u.buttons[k] == t.buttons[k])
    && (forall k | k in was.buttons && k !in t.buttons :: u.buttons[k] == was.buttons[k])
  }

  /** Operation 5: a registered target takes over what is given; any other is refused. */
  lemma {:induction false} UpdateByBytes(s: State, t: Target)
    requires Inv(s) && GoodTarget(t)
    ensures var r, id := Written(s, RequestBytes(5, t)), t.identifier;
            if id !in s.targets then r == After(s, Rejected(Unknown))
            else && id in r.state.targets && Overlays(r.state.targets[id], s.targets[id], NormalTarget(t))
                 && Performed(s, r, s.(targets := s.targets[id := r.state.targets[id]]))
  {
    RequestIsAdmitted(5, Update, t);
    WriteIsPerformed(s, RequestBytes(5, t), Request(Update, Some(NormalTarget(t))));
  }

  /** Operation 3 with buttons: exactly those go. */
  lemma {:induction false} RemoveButtonsByBytes(s: State, t: Target)
    requires Inv(s) && GoodTarget(t) && t.buttons != map[] && t.identifier in s.targets
    ensures var r, id := Written(s, RequestBytes(3, t)), t.identifier;
            && id in r.state.targets
            && Performed(s, r, s.(targets := s.targets[id := s.targets[id].(buttons := r.state.targets[id].buttons)]))
            && (forall k :: k in r.state.targets[id].buttons <==> k in s.targets[id].buttons && k !in t.buttons)
            && (forall k | k in r.state.targets[id].buttons ::
                  r.state.targets[id].buttons[k] == s.targets[id].buttons[k])
  {
    NormalHasButtons(t);
    RequestIsAdmitted(3, Remove, t);
    WriteIsPerformed(s, RequestBytes(3, t), Request(Remove, Some(NormalTarget(t))));
  }

  lemma {:induction false} NormalHasButtons(t: Target)
    ensures NormalTarget(t).buttons.Keys == t.buttons.Keys
    ensures NormalTarget(t).buttons == map[] <==> t.buttons == map[]
  {
    assert t.buttons != map[] ==> t.buttons.Keys != {};
  }

  /** Operation 3 without: the target goes, its data stream is closed, and the selection moves on if it was selected. */
  lemma {:induction false} RemoveByBytes(s: State, t: Target)
    requires Inv(s) && GoodTarget(t) && t.buttons == map[] && t.identifier in s.targets
    ensures var r, id := Written(s, RequestBytes(3, t)), t.identifier;
            && (r.outcome.Reply? || r.outcome.Unprintable?)
            && r.state.targets == s.targets - {id} && id !in r.state.links
            && (id in s.links ==> !IsOpen(r.state.conns, s.links[id]))
            && (if s.active == id then IsFirst(s.targets - {id}, r.state.active) && r.state.client.None?
                else r.state.active == s.active && r.state.client == s.client)
  {
    NormalHasButtons(t);
    RequestIsAdmitted(3, Remove, t);
    WriteIsPerformed(s, RequestBytes(3, t), Request(Remove, Some(NormalTarget(t))));
    BareRemoval(s, NormalTarget(t));
  }

  lemma {:induction false} BareRemoval(s: State, t: Target)
    requires Inv(s) && t.buttons == map[] && t.identifier in s.targets
    ensures Perform(s, Request(Remove, Some(t))).Ok?
    ensures var u, id := Perform(s, Request(Remove, Some(t))).value, t.identifier;
            && u.targets == s.targets - {id} && id !in u.links
            && (id in s.links ==> !IsOpen(u.conns, s.links[id]))
            && (if s.active == id then IsFirst(s.targets - {id}, u.active) && u.client.None?
                else u.active == s.active && u.client == s.client)
  {
    var id := t.identifier;
    var s1 := Dropped(s, id);
    DropLinkKeeps(s, id);
    DroppedKept(s, id);
    SmallestIsFirst(s.targets - {id});
    if s1.active == id {
      MovesTo(s1, Smallest(s1.targets));
    }
  }

  /** Operation 4: nothing is left, and no data stream is open. */
  lemma {:induction false} ResetByBytes(s: State)
    requires Inv(s)
    ensures var r := Written(s, OrderBytes(4));
            && (r.outcome.Reply? || r.outcome.Unprintable?)
            && r.state.targets == map[] && r.state.active == 0 && r.state.client == None && r.state.links == map[]
            && forall c | c in r.state.conns :: !IsOpen(r.state.conns, c)
  {
    OrderIsAdmitted(4, Reset);
    WriteIsPerformed(s, OrderBytes(4), Request(Reset, None));
    ResetEffect(s);
  }

  /** Operation 1: nothing changes. */
  lemma {:induction false} ListByBytes(s: State)
    requires Inv(s)
    ensures Performed(s, Written(s, OrderBytes(1)), s)
  {
    OrderIsAdmitted(1, ListAll);
    WriteIsPerformed(s, OrderBytes(1), Request(ListAll, None));
  }

  /** A record where none may be, none where one must be, a target that is not registered, or no operation at all. */
  lemma {:induction false} RefusedByBytes(s: State, t: Target, code: byte)
    requires Inv(s) && GoodTarget(t)
    ensures code == 1 || code == 4 ==> Written(s, RequestBytes(code, t)) == After(s, Rejected(UnwantedConfig))
    ensures code == 2 ==> Written(s, OrderBytes(code)) == After(s, Rejected(NeedsConfig))
    ensures code == 3 || code == 5 ==> Written(s, OrderBytes(code)) == After(s, Rejected(Unknown))
    ensures code == 3 && t.identifier !in s.targets ==> Written(s, RequestBytes(code, t)) == After(s, Rejected(Unknown))
    ensures code == 0 || code > 5 ==> Written(s, OrderBytes(code)) == After(s, Rejected(BadOperation))
  {
    var operation :=
      match code
      case 1 => ListAll
      case 2 => Add
      case 3 => Remove
      case 4 => Reset
      case 5 => Update
      case _ => Undefined;
    OrderReads(code);
    if code <= 5 {
      OrderIsAdmitted(code, operation);
      RequestIsAdmitted(code, operation, t);
    }
  }

  /** Whoever is no administrator changes nothing. */
  lemma {:induction false} OnlyAdministrators(s: State, raw: Option<seq<byte>>)
    ensures Apply(s, ListWrite(raw, false)) == After(s, Rejected(NotAdmin))
  {
  }
}
