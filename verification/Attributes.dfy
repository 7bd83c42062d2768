/** fileee/types.go: the codec between attributes.data and the typed attribute structs. Keys the library
    knows are decoded to typed fields and re-encoded in a canonical wrapper; everything else travels
    verbatim. DocumentAttributes and CompanyAttributes differ only in their table of keys. */
module Attributes {
  import opened Integers
  import opened Optional
  import opened Json

  datatype Kind = Text | Texts | Date | Flag | Count | MoneyGroup | BankGroup

  /** The keys of the switch in UnmarshalJSON, and what time.Parse accepts after a full date. */
  datatype Schema = Schema(kinds: map<string, Kind>, timeTail: string -> bool)

  function DocumentKinds(): map<string, Kind> {
    map[
      "title" := Text, "documentTypeId" := Text, "senderId" := Text, "receiverId" := Text,
      "invoiceId" := Text, "paymentReference" := Text, "contentLanguage" := Text, "customerId" := Text,
      "tagIds" := Texts,
      "invoiceDate" := Date, "issueDate" := Date, "invoiceDueDate" := Date,
      "read" := Flag, "reviewed" := Flag, "secured" := Flag, "payed" := Flag,
      "totalPageCount" := Count, "maxPageNr" := Count,
      "amount" := MoneyGroup, "grossIncome" := MoneyGroup, "netIncome" := MoneyGroup,
      "bankAccount1" := BankGroup]
  }

  function CompanyKinds(): map<string, Kind> {
    map["ibans" := Texts, "vatIds" := Texts, "emails" := Texts, "phoneNumbers" := Texts,
        "websites" := Texts, "germanTaxIds" := Texts]
  }

  datatype Money = Money(value: Number, currency: string)

  datatype BankAccount = BankAccount(iban: string, bic: string, bank: string, accountHolder: string)

  /** A struct field; an empty list stands for Go's nil slice as well. */
  datatype Field =
    | TextField(s: string)
    | TextsField(list: seq<string>)
    | DateField(t: Option<Time>)
    | FlagField(b: Option<bool>)
    | CountField(n: int)
    | MoneyField(m: Option<Money>)
    | BankField(a: Option<BankAccount>)

  function Zero(kind: Kind): Field {
    match kind
    case Text => TextField("")
    case Texts => TextsField([])
    case Date => DateField(None)
    case Flag => FlagField(None)
    case Count => CountField(0)
    case MoneyGroup => MoneyField(None)
    case BankGroup => BankField(None)
  }

  predicate IsGroup(kind: Kind) { kind == MoneyGroup || kind == BankGroup }

  // ---------------------------------------------------------------- decoding one value

  /** The part of rawAttribute that is used; value and data are absent, null, or there. */
  datatype Wrapper = Wrapper(value: Option<Value>, data: Option<map<string, Value>>)

  const TEXT_FIELDS: set<string> := {"modified", "source", "type", "containedType", "enumClassName", "attributeGroup"}

  /** json.Unmarshal into rawAttribute: null leaves it empty, a member of the wrong type is an error. */
  function ParseWrapper(v: Value): Option<Wrapper> {
    match v
    case Null => Some(Wrapper(None, None))
    case Obj(fields) =>
      if (forall k :: k in TEXT_FIELDS && k in fields ==> fields[k].Str? || fields[k].Null?)
         && ("data" in fields ==> fields["data"].Obj? || fields["data"].Null?)
      then
        Some(Wrapper(
               if "value" in fields then Some(fields["value"]) else None,
               if "data" in fields && fields["data"].Obj? then Some(fields["data"].fields) else None))
      else None
    case _ => None
  }

  function DecodeString(v: Option<Value>): string {
    if v.Some? && v.value.Str? then v.value.s else ""
  }

  function DecodeBool(v: Option<Value>): Option<bool> {
    if v.Some? && v.value.Bool? then Some(v.value.b) else None
  }

  function DecodeInt(v: Option<Value>): int {
    if v.None? then 0
    else match v.value
      case Str(s) => if s == "" || ParseInt(s).None? then 0 else ParseInt(s).value
      case Num(Integer(n)) => Reread(n)
      case Num(Fraction(whole, _)) => Reread(whole)
      case _ => 0
  }

  /** A list element that is no string decodes to the empty string; a value that is no list to no list. */
  function DecodeStrings(v: Option<Value>): seq<string> {
    if v.Some? && v.value.Arr? then
      seq(|v.value.elems|, i requires 0 <= i < |v.value.elems| =>
        if v.value.elems[i].Str? then v.value.elems[i].s else "")
    else []
  }

  function DecodeTime(schema: Schema, v: Option<Value>): Option<Time> {
    ParseTime(DecodeString(v), schema.timeTail)
  }

  function UnwrapNested(v: Value): Value {
    if v.Obj? && "value" in v.fields then v.fields["value"] else v
  }

  function Member(data: map<string, Value>, key: string): Option<Value> {
    if key in data then Some(UnwrapNested(data[key])) else None
  }

  function DecodeFloat(v: Option<Value>): Number {
    if v.None? || !v.value.Num? then Integer(0)
    else match v.value.num
      case Integer(n) => Integer(Float64(n))
      case Fraction(_, _) => v.value.num
      case Huge(_) => Integer(0)
  }

  function DecodeMoney(data: Option<map<string, Value>>): Option<Money> {
    if data.None? then None
    else Some(Money(DecodeFloat(Member(data.value, "value")), DecodeString(Member(data.value, "currency"))))
  }

  function DecodeBank(data: Option<map<string, Value>>): Option<BankAccount> {
    if data.None? then None
    else
      var d := data.value;
      Some(BankAccount(DecodeString(Member(d, "iban")), DecodeString(Member(d, "bic")),
                       DecodeString(Member(d, "bank")), DecodeString(Member(d, "account_holder"))))
  }

  function DecodeField(schema: Schema, kind: Kind, w: Wrapper): Field {
    match kind
    case Text => TextField(DecodeString(w.value))
    case Texts => TextsField(DecodeStrings(w.value))
    case Date => DateField(DecodeTime(schema, w.value))
    case Flag => FlagField(DecodeBool(w.value))
    case Count => CountField(DecodeInt(w.value))
    case MoneyGroup => MoneyField(DecodeMoney(w.data))
    case BankGroup => BankField(DecodeBank(w.data))
  }

  // ---------------------------------------------------------------- encoding one field

  function Simple(value: Value, typ: string): Option<Value> {
    Some(Obj(map["value" := value, "type" := Str(typ)]))
  }

  function Strings(list: seq<string>): Value {
    Arr(seq(|list|, i requires 0 <= i < |list| => Str(list[i])))
  }

  /** The setSimple and setListStrings helpers: zero fields write nothing, groups are not written at all. */
  function EncodeField(f: Field): Option<Value> {
    match f
    case TextField(s) => if s == "" then None else Simple(Str(s), "TEXT")
    case FlagField(b) => if b.None? then None else Simple(Bool(b.value), "BOOLEAN")
    case CountField(n) => if n == 0 then None else Simple(Num(Integer(n)), "INTEGER")
    case DateField(t) => if t.None? then None else Simple(Str(t.value.date), "DATE")
    case TextsField(list) =>
      if list == [] then None
      else Some(Obj(map["value" := Strings(list), "containedType" := Str("TEXT"), "type" := Str("LIST")]))
    case MoneyField(_) => None
    case BankField(_) => None
  }

  // ---------------------------------------------------------------- whole structs

  /** typed holds one field for every key of the schema. */
  datatype Attributes = Attributes(typed: map<string, Field>, rawExtra: map<string, Value>)

  predicate DecodesAsField(schema: Schema, key: string, v: Value) {
    key in schema.kinds && ParseWrapper(v).Some?
  }

  /** Unknown keys, undecodable wrappers and groups are kept as they came. */
  predicate KeptVerbatim(schema: Schema, key: string, v: Value) {
    !DecodesAsField(schema, key, v) || IsGroup(schema.kinds[key])
  }

  function FieldOf(schema: Schema, raw: map<string, Value>, key: string): Field
    requires key in schema.kinds
  {
    if key in raw && ParseWrapper(raw[key]).Some?
    then DecodeField(schema, schema.kinds[key], ParseWrapper(raw[key]).value)
    else Zero(schema.kinds[key])
  }

  function Decode(schema: Schema, raw: map<string, Value>): Attributes {
    Attributes(
      map key | key in schema.kinds :: FieldOf(schema, raw, key),
      map key | key in raw && KeptVerbatim(schema, key, raw[key]) :: raw[key])
  }

  function Encode(a: Attributes): map<string, Value> {
    a.rawExtra + map key | key in a.typed && EncodeField(a.typed[key]).Some? :: EncodeField(a.typed[key]).value
  }

  class AttributeStruct {
    const schema: Schema
    var typed: map<string, Field>
    var RawExtra: map<string, Value>

    constructor (schema: Schema)
      ensures this.schema == schema && View() == Decode(schema, map[])
    {
      this.schema := schema;
      typed := map key | key in schema.kinds :: Zero(schema.kinds[key]);
      RawExtra := map[];
    }

    function View(): Attributes
      reads this
    {
      Attributes(typed, RawExtra)
    }

    /** The loop over the members in any order; null decodes like an empty object. */
    method UnmarshalJSON(data: Value) returns (ok: bool)
      modifies this
      ensures ok <==> data.Obj? || data.Null?
      ensures ok ==> View() == Decode(schema, if data.Obj? then data.fields else map[])
      ensures !ok ==> View() == old(View())
    {
      if !data.Obj? && !data.Null? {
        return false;
      }
      var raw := if data.Obj? then data.fields else map[];
      typed := map key | key in schema.kinds :: Zero(schema.kinds[key]);
      RawExtra := map[];
      var keys := raw.Keys;
      ghost var done: map<string, Value> := map[];
      while keys != {}
        invariant keys <= raw.Keys && done.Keys == raw.Keys - keys
        invariant forall key :: key in done ==> done[key] == raw[key]
        invariant View() == Decode(schema, done)
        decreases |keys|
      {
        var key :| key in keys;
        var val := raw[key];
        var wrapper := ParseWrapper(val);
        if wrapper.None? {
          RawExtra := RawExtra[key := val];
        } else if key in schema.kinds {
          typed := typed[key := DecodeField(schema, schema.kinds[key], wrapper.value)];
          if IsGroup(schema.kinds[key]) {
            RawExtra := RawExtra[key := val];
          }
        } else {
          RawExtra := RawExtra[key := val];
        }
        DecodeMore(schema, done, key, val);
        done := done[key := val];
        keys := keys - {key};
      }
      assert done == raw;
      ok := true;
    }

    method CopyRawExtra() returns (out: map<string, Value>)
      ensures out == RawExtra
    {
      out := map[];
      var keys := RawExtra.Keys;
      while keys != {}
        invariant keys <= RawExtra.Keys && out.Keys == RawExtra.Keys - keys
        invariant forall key :: key in out ==> out[key] == RawExtra[key]
        decreases |keys|
      {
        var key :| key in keys;
        out := out[key := RawExtra[key]];
        keys := keys - {key};
      }
    }

    /** RawExtra is copied in any order, then every named field is set; the order of those calls does not
        matter either. */
    method MarshalJSON() returns (out: map<string, Value>)
      ensures out == Encode(View())
    {
      out := CopyRawExtra();
      var keys := typed.Keys;
      assert typed - keys == map[];
      while keys != {}
        invariant keys <= typed.Keys
        invariant out == Encode(Attributes(typed - keys, RawExtra))
        decreases |keys|
      {
        var key :| key in keys;
        var encoded := EncodeField(typed[key]);
        if encoded.Some? {
          out := out[key := encoded.value];
        }
        EncodeNext(typed, keys, RawExtra, key);
        keys := keys - {key};
      }
      assert typed - keys == typed;
    }
  }

  /** One more field. */
  lemma EncodeNext(typed: map<string, Field>, keys: set<string>, rawExtra: map<string, Value>, key: string)
    requires key in keys && keys <= typed.Keys
    ensures var out := Encode(Attributes(typed - keys, rawExtra));
            Encode(Attributes(typed - (keys - {key}), rawExtra))
            == if EncodeField(typed[key]).Some? then out[key := EncodeField(typed[key]).value] else out
  {
    assert typed - (keys - {key}) == (typed - keys)[key := typed[key]];
    EncodeMore(Attributes(typed - keys, rawExtra), key, typed[key]);
  }

  lemma EncodeMore(a: Attributes, key: string, f: Field)
    requires key !in a.typed
    ensures Encode(a.(typed := a.typed[key := f]))
            == if EncodeField(f).Some? then Encode(a)[key := EncodeField(f).value] else Encode(a)
  {}

  lemma DecodeMore(schema: Schema, raw: map<string, Value>, key: string, v: Value)
    requires key !in raw
    ensures Decode(schema, raw[key := v]).typed
            == (if DecodesAsField(schema, key, v)
                then Decode(schema, raw).typed[key := DecodeField(schema, schema.kinds[key], ParseWrapper(v).value)]
                else Decode(schema, raw).typed)
    ensures Decode(schema, raw[key := v]).rawExtra
            == (if KeptVerbatim(schema, key, v) then Decode(schema, raw).rawExtra[key := v]
                else Decode(schema, raw).rawExtra)
  {}

  // ---------------------------------------------------------------- conservation and frame

  /** A named simple key whose decoded value is zero: encoding writes nothing for it. */
  predicate Dropped(schema: Schema, key: string, v: Value) {
    && !KeptVerbatim(schema, key, v)
    && DecodeField(schema, schema.kinds[key], ParseWrapper(v).value) == Zero(schema.kinds[key])
  }

  lemma FieldZeroIff(schema: Schema, kind: Kind, w: Wrapper)
    requires !IsGroup(kind)
    ensures EncodeField(DecodeField(schema, kind, w)).None? <==> DecodeField(schema, kind, w) == Zero(kind)
  {}

  /** Decoding and encoding again keeps every unknown, group and undecodable member as it is, drops only
      simple members whose decoded value is zero, and invents none. */
  lemma Conservation(schema: Schema, raw: map<string, Value>)
    ensures var out := Encode(Decode(schema, raw));
            && out.Keys == (set key | key in raw && !Dropped(schema, key, raw[key]))
            && (forall key :: key in raw && KeptVerbatim(schema, key, raw[key]) ==> out[key] == raw[key])
  {
    var a := Decode(schema, raw);
    var out := Encode(a);
    forall key
      ensures key in out <==> key in raw && !Dropped(schema, key, raw[key])
      ensures key in raw && KeptVerbatim(schema, key, raw[key]) ==> key in out && out[key] == raw[key]
    {
      EncodedAt(schema, raw, key);
    }
  }

  /** One key of the output. */
  lemma EncodedAt(schema: Schema, raw: map<string, Value>, key: string)
    ensures var out := Encode(Decode(schema, raw));
            if key !in raw || Dropped(schema, key, raw[key]) then key !in out
            else if KeptVerbatim(schema, key, raw[key]) then key in out && out[key] == raw[key]
            else
              var e := EncodeField(DecodeField(schema, schema.kinds[key], ParseWrapper(raw[key]).value));
              e.Some? && key in out && out[key] == e.value
  {
    if key in schema.kinds {
      assert EncodeField(Zero(schema.kinds[key])).None?;
      if key in raw && ParseWrapper(raw[key]).Some? && !IsGroup(schema.kinds[key]) {
        FieldZeroIff(schema, schema.kinds[key], ParseWrapper(raw[key]).value);
      }
    }
  }

  /** Setting one field between decoding and encoding changes the output at its key alone. */
  lemma Frame(a: Attributes, key: string, f: Field)
    ensures var before, after := Encode(a), Encode(a.(typed := a.typed[key := f]));
            && (forall other :: other != key ==> (other in after <==> other in before))
            && (forall other :: other != key && other in before ==> after[other] == before[other])
            && (EncodeField(f).Some? ==> key in after && after[key] == EncodeField(f).value)
            && (EncodeField(f).None? ==> if key in a.rawExtra then key in after && after[key] == a.rawExtra[key]
                                         else key !in after)
  {}

  // ---------------------------------------------------------------- normalisation

  /** What one more trip through JSON makes of a field. */
  function Settle(f: Field): Field {
    match f
    case DateField(Some(t)) => DateField(Some(Time(t.date, "")))
    case CountField(n) => CountField(Reread(n))
    case _ => f
  }

  /** The documented loss: the time of day. */
  function WithoutTimeOfDay(f: Field): Field {
    match f
    case DateField(Some(t)) => DateField(Some(Time(t.date, "")))
    case _ => f
  }

  function SettleAll(a: Attributes, settle: Field -> Field): Attributes {
    a.(typed := map key | key in a.typed :: settle(a.typed[key]))
  }

  lemma StringsDecode(list: seq<string>)
    ensures DecodeStrings(Some(Strings(list))) == list
  {}

  lemma ParseSimple(value: Value, typ: string)
    ensures ParseWrapper(Simple(value, typ).value) == Some(Wrapper(Some(value), None))
  {
    assert Simple(value, typ).value.fields.Keys == {"value", "type"};
  }

  lemma ParseList(list: seq<string>)
    requires list != []
    ensures EncodeField(TextsField(list)).Some?
    ensures ParseWrapper(EncodeField(TextsField(list)).value) == Some(Wrapper(Some(Strings(list)), None))
  {
    assert EncodeField(TextsField(list)).value.fields.Keys == {"value", "containedType", "type"};
  }

  /** Encoding a decoded field and decoding it again: the field survives up to Settle, and zero stays zero. */
  lemma FieldSettles(schema: Schema, kind: Kind, w: Wrapper)
    requires !IsGroup(kind)
    ensures var f := DecodeField(schema, kind, w);
            match EncodeField(f)
            case None => Settle(f) == f == Zero(kind)
            case Some(v) =>
              ParseWrapper(v).Some? && DecodeField(schema, kind, ParseWrapper(v).value) == Settle(f)
              && Settle(f) != Zero(kind)
  {
    match kind
    case Text => ParseSimple(Str(DecodeString(w.value)), "TEXT");
    case Texts =>
      var list := DecodeStrings(w.value);
      StringsDecode(list);
      if list != [] { ParseList(list); }
    case Date => DateFieldSettles(schema, w);
    case Flag => if DecodeBool(w.value).Some? { ParseSimple(Bool(DecodeBool(w.value).value), "BOOLEAN"); }
    case Count => CountSettles(DecodeInt(w.value));
  }

  lemma CountSettles(n: int)
    ensures var f := CountField(n);
            match EncodeField(f)
            case None => Settle(f) == f == Zero(Count)
            case Some(v) =>
              ParseWrapper(v).Some? && DecodeInt(ParseWrapper(v).value.value) == Settle(f).n
              && Settle(f) != Zero(Count)
  {
    ParseSimple(Num(Integer(n)), "INTEGER");
    RereadFacts(n);
  }

  lemma DateFieldSettles(schema: Schema, w: Wrapper)
    ensures var f := DateField(DecodeTime(schema, w.value));
            match EncodeField(f)
            case None => Settle(f) == f == Zero(Date)
            case Some(v) =>
              ParseWrapper(v).Some? && DateField(DecodeTime(schema, ParseWrapper(v).value.value)) == Settle(f)
              && Settle(f) != Zero(Date)
  {
    var t := DecodeTime(schema, w.value);
    if t.Some? {
      ParseSimple(Str(t.value.date), "DATE");
      DateSettles(schema, w);
    }
  }

  lemma DateSettles(schema: Schema, w: Wrapper)
    ensures var t := DecodeTime(schema, w.value);
            t.Some? ==> ParseTime(t.value.date, schema.timeTail) == Some(Time(t.value.date, ""))
  {
    var t := DecodeTime(schema, w.value);
    if t.Some? {
      assert t.value.date[..10] == t.value.date && t.value.date[10..] == "";
    }
  }

  /** decode . encode . decode is decode, up to Settle: RawExtra and the groups come back unchanged. */
  lemma DecodeSettles(schema: Schema, raw: map<string, Value>)
    ensures Decode(schema, Encode(Decode(schema, raw))) == SettleAll(Decode(schema, raw), Settle)
  {
    var a := Decode(schema, raw);
    var out := Encode(a);
    forall key
      ensures key in schema.kinds ==> FieldOf(schema, out, key) == Settle(FieldOf(schema, raw, key))
      ensures key in out && KeptVerbatim(schema, key, out[key]) <==> key in raw && KeptVerbatim(schema, key, raw[key])
      ensures key in raw && KeptVerbatim(schema, key, raw[key]) ==> out[key] == raw[key]
    {
      SettlesAt(schema, raw, key);
    }
    assert Decode(schema, out).typed == SettleAll(a, Settle).typed;
    assert Decode(schema, out).rawExtra == a.rawExtra;
  }

  lemma SettlesAt(schema: Schema, raw: map<string, Value>, key: string)
    ensures var out := Encode(Decode(schema, raw));
            && (key in schema.kinds ==> FieldOf(schema, out, key) == Settle(FieldOf(schema, raw, key)))
            && (key in out && KeptVerbatim(schema, key, out[key])
                <==> key in raw && KeptVerbatim(schema, key, raw[key]))
            && (key in raw && KeptVerbatim(schema, key, raw[key]) ==> key in out && out[key] == raw[key])
  {
    EncodedAt(schema, raw, key);
    RereadFacts(0);
    if key in schema.kinds && key in raw && !KeptVerbatim(schema, key, raw[key]) {
      FieldSettles(schema, schema.kinds[key], ParseWrapper(raw[key]).value);
    }
  }

  /** Every integer field is a value that a double holds; the condition a caller can check. */
  predicate CountsExact(a: Attributes) {
    forall key :: key in a.typed ==> ExactAt(a, key)
  }

  predicate ExactAt(a: Attributes, key: string)
    requires key in a.typed
  {
    a.typed[key].CountField? ==> Exact(a.typed[key].n)
  }

  predicate InRange(f: Field) {
    f.CountField? ==> -TWO_63 <= f.n < TWO_63
  }

  lemma DecodedInRange(schema: Schema, raw: map<string, Value>, key: string)
    requires key in schema.kinds
    ensures InRange(FieldOf(schema, raw, key))
  {}

  lemma SettleExact(f: Field)
    requires InRange(f)
    ensures Settle(f) == WithoutTimeOfDay(f) <==> f.CountField? ==> Exact(f.n)
    ensures EncodeField(Settle(f)) == EncodeField(f) <==> f.CountField? ==> Exact(f.n)
  {
    match f
    case CountField(n) => CountExact(n, Reread(n));
    case _ =>
  }

  lemma CountExact(n: int, m: int)
    requires m == Reread(n) && -TWO_63 <= n < TWO_63
    ensures m == n <==> Exact(n)
    ensures EncodeField(CountField(m)) == EncodeField(CountField(n)) <==> m == n
  {
    RereadFacts(n);
    CountsEncodeApart(n, m);
  }

  lemma CountsEncodeApart(n: int, m: int)
    ensures EncodeField(CountField(m)) == EncodeField(CountField(n)) <==> m == n
  {
    if n != 0 { CountEncoded(n); }
    if m != 0 { CountEncoded(m); }
  }

  lemma CountEncoded(n: int)
    requires n != 0
    ensures EncodeField(CountField(n)).Some? && EncodeField(CountField(n)).value.Obj?
    ensures "value" in EncodeField(CountField(n)).value.fields
    ensures EncodeField(CountField(n)).value.fields["value"] == Num(Integer(n))
  {}

  /** decode . encode . decode equals decode but for the time of day exactly when every integer field is a
      double: integers that arrive as strings are read exactly, but are sent back as numbers. */
  lemma RoundTripIff(schema: Schema, raw: map<string, Value>)
    ensures var a := Decode(schema, raw);
            Decode(schema, Encode(a)) == SettleAll(a, WithoutTimeOfDay) <==> CountsExact(a)
  {
    var a := Decode(schema, raw);
    DecodeSettles(schema, raw);
    var settled, wanted := SettleAll(a, Settle).typed, SettleAll(a, WithoutTimeOfDay).typed;
    forall key | key in a.typed
      ensures settled[key] == wanted[key] <==> ExactAt(a, key)
    {
      DecodedInRange(schema, raw, key);
      SettleExact(a.typed[key]);
    }
    if CountsExact(a) {
      assert forall key :: key in a.typed ==> ExactAt(a, key);
      assert settled == wanted;
    } else {
      var key :| key in a.typed && !ExactAt(a, key);
    }
  }

  function Normalise(schema: Schema, raw: map<string, Value>): map<string, Value> {
    Encode(Decode(schema, raw))
  }

  /** Normalising twice is normalising once under the same condition. */
  lemma NormaliseIdempotentIff(schema: Schema, raw: map<string, Value>)
    ensures Normalise(schema, Normalise(schema, raw)) == Normalise(schema, raw)
            <==> CountsExact(Decode(schema, raw))
  {
    var a := Decode(schema, raw);
    DecodeSettles(schema, raw);
    EncodeSettled(schema, raw);
    if !CountsExact(a) {
      var key :| key in a.typed && !ExactAt(a, key);
      DecodedInRange(schema, raw, key);
      InexactShows(schema, raw, key);
    }
  }

  /** An integer that is no double is written differently the second time. */
  lemma InexactShows(schema: Schema, raw: map<string, Value>, key: string)
    requires key in schema.kinds && !ExactAt(Decode(schema, raw), key)
    ensures var a := Decode(schema, raw);
            && key in Encode(a) && key in Encode(SettleAll(a, Settle))
            && Encode(SettleAll(a, Settle))[key] != Encode(a)[key]
  {
    var n := FieldOf(schema, raw, key).n;
    DecodedInRange(schema, raw, key);
    CountExact(n, Reread(n));
    RereadFacts(n);
    SmallIntegersExact(0);
    CountEncoded(n);
    CountEncoded(Reread(n));
    assert key !in Decode(schema, raw).rawExtra by { assert n != 0; }
  }

  lemma EncodeSettled(schema: Schema, raw: map<string, Value>)
    ensures var a := Decode(schema, raw);
            CountsExact(a) ==> Encode(SettleAll(a, Settle)) == Encode(a)
  {
    var a := Decode(schema, raw);
    if CountsExact(a) {
      forall key | key in a.typed ensures EncodeField(Settle(a.typed[key])) == EncodeField(a.typed[key]) {
        DecodedInRange(schema, raw, key);
        SettleExact(a.typed[key]);
      }
    }
  }

  lemma SettledCountsExact(a: Attributes)
    ensures CountsExact(SettleAll(a, Settle))
  {
    var settled := SettleAll(a, Settle);
    forall key | key in settled.typed ensures ExactAt(settled, key) {
      if a.typed[key].CountField? {
        RereadFacts(a.typed[key].n);
      }
    }
  }

  /** Whatever the integers, the second result is final. */
  lemma NormaliseSettles(schema: Schema, raw: map<string, Value>)
    ensures var twice := Normalise(schema, Normalise(schema, raw));
            Normalise(schema, twice) == twice
  {
    var once := Normalise(schema, raw);
    DecodeSettles(schema, raw);
    SettledCountsExact(Decode(schema, raw));
    NormaliseIdempotentIff(schema, once);
  }

  /** The condition holds up to 2^53, and always for company attributes, which have no integer field. */
  lemma CountsExactWhenSmall(schema: Schema, raw: map<string, Value>)
    requires forall key :: key in schema.kinds && schema.kinds[key] == Count ==>
                             Abs(FieldOf(schema, raw, key).n) <= TWO_53
    ensures CountsExact(Decode(schema, raw))
  {
    var a := Decode(schema, raw);
    forall key | key in a.typed ensures ExactAt(a, key) {
      if a.typed[key].CountField? { SmallIntegersExact(a.typed[key].n); }
    }
  }

  lemma CompaniesNormalise(timeTail: string -> bool, raw: map<string, Value>)
    ensures var schema := Schema(CompanyKinds(), timeTail);
            Normalise(schema, Normalise(schema, raw)) == Normalise(schema, raw)
  {
    var schema := Schema(CompanyKinds(), timeTail);
    CountsExactWhenSmall(schema, raw);
    NormaliseIdempotentIff(schema, raw);
  }

  lemma DocumentCounts(key: string)
    ensures key in DocumentKinds() && DocumentKinds()[key] == Count <==> key == "totalPageCount" || key == "maxPageNr"
  {}

  /** For documents the condition is about the two page numbers. */
  lemma DocumentsNormaliseIff(timeTail: string -> bool, raw: map<string, Value>)
    ensures var schema := Schema(DocumentKinds(), timeTail);
            && FieldOf(schema, raw, "totalPageCount").CountField? && FieldOf(schema, raw, "maxPageNr").CountField?
            && (Normalise(schema, Normalise(schema, raw)) == Normalise(schema, raw)
                <==> Exact(FieldOf(schema, raw, "totalPageCount").n) && Exact(FieldOf(schema, raw, "maxPageNr").n))
  {
    var schema := Schema(DocumentKinds(), timeTail);
    DocumentCounts("totalPageCount");
    DocumentCounts("maxPageNr");
    CountsOf(schema, raw, {"totalPageCount", "maxPageNr"}) by {
      forall key ensures key in schema.kinds && schema.kinds[key] == Count <==> key in {"totalPageCount", "maxPageNr"} {
        DocumentCounts(key);
      }
    }
    NormaliseIdempotentIff(schema, raw);
  }

  lemma CountsOf(schema: Schema, raw: map<string, Value>, counts: set<string>)
    requires forall key :: key in schema.kinds && schema.kinds[key] == Count <==> key in counts
    ensures forall key :: key in counts ==> FieldOf(schema, raw, key).CountField?
    ensures CountsExact(Decode(schema, raw)) <==> forall key :: key in counts ==> Exact(FieldOf(schema, raw, key).n)
  {
    var a := Decode(schema, raw);
    forall key | key in schema.kinds
      ensures ExactAt(a, key) <==> key in counts ==> Exact(FieldOf(schema, raw, key).n)
    {}
  }

  /** 2^53 + 1 pages, sent as a string, become 2^53 on the second trip. */
  lemma NormaliseNotAlwaysIdempotent(schema: Schema)
    requires "totalPageCount" in schema.kinds && schema.kinds["totalPageCount"] == Count
    ensures var raw := map["totalPageCount" := Obj(map["value" := Str("9007199254740993")])];
            && FieldOf(schema, raw, "totalPageCount") == CountField(0x20_0000_0000_0001)
            && FieldOf(schema, Normalise(schema, raw), "totalPageCount") == CountField(0x20_0000_0000_0000)
            && Normalise(schema, Normalise(schema, raw)) != Normalise(schema, raw)
  {
    var v := Obj(map["value" := Str("9007199254740993")]);
    var raw := map["totalPageCount" := v];
    assert ParseWrapper(v) == Some(Wrapper(Some(Str("9007199254740993")), None)) by {
      assert v.fields.Keys == {"value"};
    }
    DigitsOfExample();
    RereadOfExample();
    var a := Decode(schema, raw);
    SettlesAt(schema, raw, "totalPageCount");
    assert a.typed["totalPageCount"] == CountField(0x20_0000_0000_0001);
    assert !ExactAt(a, "totalPageCount");
    NormaliseIdempotentIff(schema, raw);
  }

  lemma RereadOfExample()
    ensures Reread(0x20_0000_0000_0001) == 0x20_0000_0000_0000 && !Exact(0x20_0000_0000_0001)
  {}

  lemma DigitsOfExample()
    ensures ParseInt("9007199254740993") == Some(0x20_0000_0000_0001)
  {
    FirstDigitsOfExample();
    assert "900719925474099"[..14] == "90071992547409" && "9007199254740993"[..15] == "900719925474099";
    assert Digits("900719925474099") == Some(900719925474099);
    assert Digits("9007199254740993") == Some(9007199254740993);
  }

  lemma FirstDigitsOfExample()
    ensures Digits("90071992547409") == Some(90071992547409)
  {
    assert "9007"[..3] == "900" && "900"[..2] == "90" && "90"[..1] == "9" && "9"[..0] == "";
    assert Digits("9") == Some(9);
    assert Digits("90") == Some(90);
    assert Digits("900") == Some(900);
    assert Digits("9007") == Some(9007);
    assert "90071"[..4] == "9007" && "900719"[..5] == "90071" && "9007199"[..6] == "900719";
    assert Digits("90071") == Some(90071);
    assert Digits("900719") == Some(900719);
    assert Digits("9007199") == Some(9007199);
    assert "90071992"[..7] == "9007199" && "900719925"[..8] == "90071992" && "9007199254"[..9] == "900719925";
    assert Digits("90071992") == Some(90071992);
    assert Digits("900719925") == Some(900719925);
    assert Digits("9007199254") == Some(9007199254);
    assert "90071992547"[..10] == "9007199254" && "900719925474"[..11] == "90071992547";
    assert Digits("90071992547") == Some(90071992547);
    assert Digits("900719925474") == Some(900719925474);
    assert "9007199254740"[..12] == "900719925474" && "90071992547409"[..13] == "9007199254740";
    assert Digits("9007199254740") == Some(9007199254740);
  }
}
