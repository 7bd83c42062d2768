/** fileee/types.go seen from the wire: the members of attributes.data as the server sends them, under their
    own keys, and the typed fields they become; and the members a struct is sent back as. */
module AttributesWire {
  import opened Attributes
  import opened Json
  import opened Optional

  // ---------------------------------------------------------------- members on the wire

  /** A wrapper whose members have the types rawAttribute asks for. */
  predicate IsWrapper(v: Value) {
    && v.Obj?
    && (forall k :: k in v.fields
                    && k in {"modified", "source", "type", "containedType", "enumClassName", "attributeGroup"}
                    ==> v.fields[k].Str? || v.fields[k].Null?)
    && ("data" in v.fields ==> v.fields["data"].Obj? || v.fields["data"].Null?)
  }

  /** It has this value. */
  predicate Has(v: Value, value: Value) {
    IsWrapper(v) && "value" in v.fields && v.fields["value"] == value
  }

  /** It has these group members. */
  predicate HasData(v: Value, data: map<string, Value>) {
    IsWrapper(v) && "data" in v.fields && v.fields["data"] == Obj(data)
  }

  /** A group member, plain or nested under "value". */
  predicate Carries(data: map<string, Value>, key: string, value: Value) {
    key in data && (data[key] == value || (data[key].Obj? && "value" in data[key].fields
                                           && data[key].fields["value"] == value))
  }

  /** A text of a group; absent is the empty text. */
  predicate TextMember(data: map<string, Value>, key: string, s: string) {
    if key in data then Carries(data, key, Str(s)) else s == ""
  }

  /** A number of a group that a double holds; absent is 0. */
  predicate NumberMember(data: map<string, Value>, key: string, x: Number) {
    && !x.Huge? && (x.Integer? ==> Exact(x.n))
    && if key in data then Carries(data, key, Num(x)) else x == Integer(0)
  }

  /** No wrapper, or one without a value. */
  predicate Nothing(raw: map<string, Value>, key: string) {
    key !in raw || !IsWrapper(raw[key]) || "value" !in raw[key].fields || raw[key].fields["value"].Null?
  }

  /** A wrapper with this value, of whatever type. */
  predicate Valued(raw: map<string, Value>, key: string) {
    key in raw && IsWrapper(raw[key]) && "value" in raw[key].fields
  }

  function ValueAt(raw: map<string, Value>, key: string): Value
    requires Valued(raw, key)
  {
    raw[key].fields["value"]
  }

  predicate NoGroup(raw: map<string, Value>, key: string) {
    key !in raw || !IsWrapper(raw[key]) || "data" !in raw[key].fields || raw[key].fields["data"].Null?
  }

  lemma WrapperParses(v: Value)
    ensures IsWrapper(v) ==>
              ParseWrapper(v) == Some(Wrapper(
                if "value" in v.fields then Some(v.fields["value"]) else None,
                if "data" in v.fields && v.fields["data"].Obj? then Some(v.fields["data"].fields) else None))
    ensures !IsWrapper(v) ==> ParseWrapper(v) == if v.Null? then Some(Wrapper(None, None)) else None
  {
    if v.Obj? {
      assert forall k :: k in TEXT_FIELDS
                         <==> k in {"modified", "source", "type", "containedType", "enumClassName", "attributeGroup"};
    }
  }

  // ---------------------------------------------------------------- what one key reads

  ghost predicate ReadsText(raw: map<string, Value>, a: Attributes, key: string) {
    && key in a.typed
    && (forall s :: key in raw && Has(raw[key], Str(s)) ==> a.typed[key] == TextField(s))
    && (Nothing(raw, key) || (Valued(raw, key) && !ValueAt(raw, key).Str?) ==> a.typed[key] == TextField(""))
  }

  ghost predicate ReadsTexts(raw: map<string, Value>, a: Attributes, key: string) {
    && key in a.typed
    && (forall list: seq<string>, elems: seq<Value> ::
          key in raw && |elems| == |list| && (forall i :: 0 <= i < |list| ==> elems[i] == Str(list[i]))
          && Has(raw[key], Arr(elems))
          ==> a.typed[key] == TextsField(list))
    && (Nothing(raw, key) || (Valued(raw, key) && !ValueAt(raw, key).Arr?) ==> a.typed[key] == TextsField([]))
  }

  /** The full-date alone, or followed by a time of day that time.Parse accepts. */
  ghost predicate ReadsDate(raw: map<string, Value>, a: Attributes, timeTail: string -> bool, key: string) {
    && key in a.typed
    && (forall century, year, month, day ::
          IsDate(century, year, month, day) && key in raw && Has(raw[key], Str(DateText(century, year, month, day)))
          ==> a.typed[key] == DateField(Some(Time(DateText(century, year, month, day), ""))))
    && (forall century, year, month, day, tail ::
          IsDate(century, year, month, day) && timeTail(tail)
          && key in raw && Has(raw[key], Str(DateText(century, year, month, day) + tail))
          ==> a.typed[key] == DateField(Some(Time(DateText(century, year, month, day), tail))))
    && (Nothing(raw, key) || (Valued(raw, key) && !ValueAt(raw, key).Str?) ==> a.typed[key] == DateField(None))
    && (forall s :: key in raw && Has(raw[key], Str(s)) && (|s| < 10 || !IsFullDate(s[..10])) ==>
                      a.typed[key] == DateField(None))
  }

  ghost predicate ReadsFlag(raw: map<string, Value>, a: Attributes, key: string) {
    && key in a.typed
    && (forall b :: key in raw && Has(raw[key], Bool(b)) ==> a.typed[key] == FlagField(Some(b)))
    && (Nothing(raw, key) || (Valued(raw, key) && !ValueAt(raw, key).Bool?) ==> a.typed[key] == FlagField(None))
  }

  /** A number up to 2^53 or the decimal of any int64 is read exactly; a number out of range gives the smallest
      int, a text out of range 0. */
  ghost predicate ReadsCount(raw: map<string, Value>, a: Attributes, key: string) {
    && key in a.typed
    && (forall n :: Abs(n) <= 0x20_0000_0000_0000 && key in raw && Has(raw[key], Num(Integer(n))) ==>
                      a.typed[key] == CountField(n))
    && (forall n :: Exact(n) && Abs(n) > 0x8000_0000_0000_0000 && key in raw && Has(raw[key], Num(Integer(n))) ==>
                      a.typed[key] == CountField(-0x8000_0000_0000_0000))
    && (forall n :: key in raw && Has(raw[key], Str(SignedDecimal(n))) ==>
                      a.typed[key] == CountField(if -0x8000_0000_0000_0000 <= n < 0x8000_0000_0000_0000 then n else 0))
    && (forall n, literal :: Abs(n) <= 0x20_0000_0000_0000 && key in raw && Has(raw[key], Num(Fraction(n, literal)))
                             ==> a.typed[key] == CountField(n))
    && (Nothing(raw, key) || (Valued(raw, key) && !ValueAt(raw, key).Num? && !ValueAt(raw, key).Str?) ==>
          a.typed[key] == CountField(0))
  }

  ghost predicate ReadsMoney(raw: map<string, Value>, a: Attributes, key: string) {
    && key in a.typed
    && (forall m: Money, data: map<string, Value> ::
          key in raw && HasData(raw[key], data)
          && NumberMember(data, "value", m.value) && TextMember(data, "currency", m.currency)
          ==> a.typed[key] == MoneyField(Some(m)))
    && (NoGroup(raw, key) ==> a.typed[key] == MoneyField(None))
  }

  ghost predicate ReadsBank(raw: map<string, Value>, a: Attributes, key: string) {
    && key in a.typed
    && (forall b: BankAccount, data: map<string, Value> ::
          key in raw && HasData(raw[key], data)
          && TextMember(data, "iban", b.iban) && TextMember(data, "bic", b.bic)
          && TextMember(data, "bank", b.bank) && TextMember(data, "account_holder", b.accountHolder)
          ==> a.typed[key] == BankField(Some(b)))
    && (NoGroup(raw, key) ==> a.typed[key] == BankField(None))
  }

  lemma TextRead(schema: Schema, raw: map<string, Value>, key: string)
    requires key in schema.kinds && schema.kinds[key] == Text
    ensures ReadsText(raw, Decode(schema, raw), key)
  {
    if key in raw { WrapperParses(raw[key]); }
  }

  lemma TextsRead(schema: Schema, raw: map<string, Value>, key: string)
    requires key in schema.kinds && schema.kinds[key] == Texts
    ensures ReadsTexts(raw, Decode(schema, raw), key)
  {
    if key in raw { WrapperParses(raw[key]); }
    var a := Decode(schema, raw);
    forall list: seq<string>, elems: seq<Value> |
      key in raw && |elems| == |list| && (forall i :: 0 <= i < |list| ==> elems[i] == Str(list[i]))
      && Has(raw[key], Arr(elems))
      ensures a.typed[key] == TextsField(list)
    {
      assert DecodeStrings(Some(Arr(elems))) == list;
    }
  }

  lemma DateRead(schema: Schema, raw: map<string, Value>, key: string)
    requires key in schema.kinds && schema.kinds[key] == Date
    ensures ReadsDate(raw, Decode(schema, raw), schema.timeTail, key)
  {
    if key in raw { WrapperParses(raw[key]); }
    var a := Decode(schema, raw);
    forall century, year, month, day |
      IsDate(century, year, month, day) && key in raw && Has(raw[key], Str(DateText(century, year, month, day)))
      ensures a.typed[key] == DateField(Some(Time(DateText(century, year, month, day), "")))
    {
      DateIsFullDate(century, year, month, day);
      var s := DateText(century, year, month, day);
      assert s[..10] == s && s[10..] == "";
    }
    forall century, year, month, day, tail |
      IsDate(century, year, month, day) && schema.timeTail(tail)
      && key in raw && Has(raw[key], Str(DateText(century, year, month, day) + tail))
      ensures a.typed[key] == DateField(Some(Time(DateText(century, year, month, day), tail)))
    {
      DateIsFullDate(century, year, month, day);
      var s := DateText(century, year, month, day);
      assert (s + tail)[..10] == s && (s + tail)[10..] == tail;
    }
  }

  lemma FlagRead(schema: Schema, raw: map<string, Value>, key: string)
    requires key in schema.kinds && schema.kinds[key] == Flag
    ensures ReadsFlag(raw, Decode(schema, raw), key)
  {
    if key in raw { WrapperParses(raw[key]); }
  }

  lemma CountRead(schema: Schema, raw: map<string, Value>, key: string)
    requires key in schema.kinds && schema.kinds[key] == Count
    ensures ReadsCount(raw, Decode(schema, raw), key)
  {
    if key in raw { WrapperParses(raw[key]); }
    var a := Decode(schema, raw);
    forall n | Abs(n) <= 0x20_0000_0000_0000 && key in raw && Has(raw[key], Num(Integer(n)))
      ensures a.typed[key] == CountField(n)
    {
      SmallIntegersExact(n);
    }
    forall n, literal | Abs(n) <= 0x20_0000_0000_0000 && key in raw && Has(raw[key], Num(Fraction(n, literal)))
      ensures a.typed[key] == CountField(n)
    {
      SmallIntegersExact(n);
    }
    forall n | Exact(n) && Abs(n) > 0x8000_0000_0000_0000 && key in raw && Has(raw[key], Num(Integer(n)))
      ensures a.typed[key] == CountField(-0x8000_0000_0000_0000)
    {
      Float64Fixes(n);
    }
    forall n | key in raw && Has(raw[key], Str(SignedDecimal(n)))
      ensures a.typed[key] == CountField(if -0x8000_0000_0000_0000 <= n < 0x8000_0000_0000_0000 then n else 0)
    {
      ParseDecimal(n);
      DigitsOfDecimal(Abs(n));
      assert SignedDecimal(n) != "";
    }
  }

  lemma MoneyRead(schema: Schema, raw: map<string, Value>, key: string)
    requires key in schema.kinds && schema.kinds[key] == MoneyGroup
    ensures ReadsMoney(raw, Decode(schema, raw), key)
  {
    if key in raw { WrapperParses(raw[key]); }
    var a := Decode(schema, raw);
    forall m: Money, data: map<string, Value> | key in raw && HasData(raw[key], data)
                     && NumberMember(data, "value", m.value) && TextMember(data, "currency", m.currency)
      ensures a.typed[key] == MoneyField(Some(m))
    {
      TextOfMember(data, "currency", m.currency);
      NumberOfMember(data, "value", m.value);
      assert a.typed[key] == MoneyField(DecodeMoney(Some(data)));
    }
  }

  lemma BankRead(schema: Schema, raw: map<string, Value>, key: string)
    requires key in schema.kinds && schema.kinds[key] == BankGroup
    ensures ReadsBank(raw, Decode(schema, raw), key)
  {
    if key in raw { WrapperParses(raw[key]); }
    var a := Decode(schema, raw);
    forall b: BankAccount, data: map<string, Value> | key in raw && HasData(raw[key], data)
                     && TextMember(data, "iban", b.iban) && TextMember(data, "bic", b.bic)
                     && TextMember(data, "bank", b.bank) && TextMember(data, "account_holder", b.accountHolder)
      ensures a.typed[key] == BankField(Some(b))
    {
      TextOfMember(data, "iban", b.iban);
      TextOfMember(data, "bic", b.bic);
      TextOfMember(data, "bank", b.bank);
      TextOfMember(data, "account_holder", b.accountHolder);
      assert a.typed[key] == BankField(DecodeBank(Some(data)));
    }
  }

  lemma TextOfMember(data: map<string, Value>, key: string, s: string)
    requires TextMember(data, key, s)
    ensures DecodeString(Member(data, key)) == s
  {}

  lemma NumberOfMember(data: map<string, Value>, key: string, x: Number)
    requires NumberMember(data, key, x)
    ensures DecodeFloat(Member(data, key)) == x
  {
    if x.Integer? { Float64Fixes(x.n); }
  }

  // ---------------------------------------------------------------- documents and companies

  const TEXT_KEYS: set<string> := {"title", "documentTypeId", "senderId", "receiverId", "invoiceId",
                                   "paymentReference", "contentLanguage", "customerId"}
  const DATE_KEYS: set<string> := {"invoiceDate", "issueDate", "invoiceDueDate"}
  const FLAG_KEYS: set<string> := {"read", "reviewed", "secured", "payed"}
  const COUNT_KEYS: set<string> := {"totalPageCount", "maxPageNr"}
  const MONEY_KEYS: set<string> := {"amount", "grossIncome", "netIncome"}
  const GROUP_KEYS: set<string> := {"amount", "grossIncome", "netIncome", "bankAccount1"}
  const SIMPLE_KEYS: set<string> := TEXT_KEYS + DATE_KEYS + FLAG_KEYS + COUNT_KEYS + {"tagIds"}
  const COMPANY_KEYS: set<string> := {"ibans", "vatIds", "emails", "phoneNumbers", "websites", "germanTaxIds"}

  lemma DocumentKeys()
    ensures DocumentKinds().Keys == SIMPLE_KEYS + GROUP_KEYS
  {}

  predicate OfKind(key: string, kind: Kind) {
    key in DocumentKinds() && DocumentKinds()[key] == kind
  }

  lemma FirstTexts()
    ensures OfKind("title", Text) && OfKind("documentTypeId", Text)
    ensures OfKind("senderId", Text) && OfKind("receiverId", Text)
  {}

  lemma OtherTexts()
    ensures OfKind("invoiceId", Text) && OfKind("paymentReference", Text)
    ensures OfKind("contentLanguage", Text) && OfKind("customerId", Text)
  {}

  lemma TextTable()
    ensures forall key :: key in TEXT_KEYS ==> key in DocumentKinds() && DocumentKinds()[key] == Text
  {
    FirstTexts();
    OtherTexts();
    forall key | key in TEXT_KEYS ensures OfKind(key, Text) {}
  }

  lemma DateTable()
    ensures forall key :: key in DATE_KEYS ==> key in DocumentKinds() && DocumentKinds()[key] == Date
  {}

  lemma FlagTable()
    ensures forall key :: key in FLAG_KEYS ==> key in DocumentKinds() && DocumentKinds()[key] == Flag
  {}

  lemma OtherTable()
    ensures forall key :: key in COUNT_KEYS ==> key in DocumentKinds() && DocumentKinds()[key] == Count
    ensures forall key :: key in MONEY_KEYS ==> key in DocumentKinds() && DocumentKinds()[key] == MoneyGroup
    ensures "tagIds" in DocumentKinds() && DocumentKinds()["tagIds"] == Texts
    ensures "bankAccount1" in DocumentKinds() && DocumentKinds()["bankAccount1"] == BankGroup
  {}

  lemma DocumentTable()
    ensures DocumentKinds().Keys == SIMPLE_KEYS + GROUP_KEYS
    ensures forall key :: key in TEXT_KEYS ==> DocumentKinds()[key] == Text
    ensures forall key :: key in DATE_KEYS ==> DocumentKinds()[key] == Date
    ensures forall key :: key in FLAG_KEYS ==> DocumentKinds()[key] == Flag
    ensures forall key :: key in COUNT_KEYS ==> DocumentKinds()[key] == Count
    ensures forall key :: key in MONEY_KEYS ==> DocumentKinds()[key] == MoneyGroup
    ensures DocumentKinds()["tagIds"] == Texts && DocumentKinds()["bankAccount1"] == BankGroup
  {
    DocumentKeys();
    TextTable();
    DateTable();
    FlagTable();
    OtherTable();
  }

  /** The members kept for sending back: groups, unknown keys, and what is no wrapper; null is one here. */
  ghost predicate KeepsRaw(raw: map<string, Value>, a: Attributes, simple: set<string>) {
    && (forall key :: key in a.rawExtra <==>
                        key in raw && (key !in simple || (!IsWrapper(raw[key]) && !raw[key].Null?)))
    && (forall key :: key in a.rawExtra ==> a.rawExtra[key] == raw[key])
  }

  /** What UnmarshalJSON has to make of attributes.data of a document. */
  ghost predicate DocumentReads(raw: map<string, Value>, timeTail: string -> bool, a: Attributes) {
    && (forall key :: key in TEXT_KEYS ==> ReadsText(raw, a, key))
    && (forall key :: key in DATE_KEYS ==> ReadsDate(raw, a, timeTail, key))
    && (forall key :: key in FLAG_KEYS ==> ReadsFlag(raw, a, key))
    && (forall key :: key in COUNT_KEYS ==> ReadsCount(raw, a, key))
    && (forall key :: key in MONEY_KEYS ==> ReadsMoney(raw, a, key))
    && ReadsTexts(raw, a, "tagIds")
    && ReadsBank(raw, a, "bankAccount1")
    && KeepsRaw(raw, a, SIMPLE_KEYS)
  }

  lemma RawKept(schema: Schema, raw: map<string, Value>, simple: set<string>)
    requires forall key :: key in simple <==> key in schema.kinds && !IsGroup(schema.kinds[key])
    ensures KeepsRaw(raw, Decode(schema, raw), simple)
  {
    forall key | key in raw
      ensures KeptVerbatim(schema, key, raw[key])
              <==> key !in simple || (!IsWrapper(raw[key]) && !raw[key].Null?)
    {
      WrapperParses(raw[key]);
    }
  }

  lemma DocumentDecodes(timeTail: string -> bool, raw: map<string, Value>)
    ensures DocumentReads(raw, timeTail, Decode(Schema(DocumentKinds(), timeTail), raw))
  {
    var schema := Schema(DocumentKinds(), timeTail);
    DocumentTable();
    forall key | key in TEXT_KEYS ensures ReadsText(raw, Decode(schema, raw), key) { TextRead(schema, raw, key); }
    forall key | key in DATE_KEYS ensures ReadsDate(raw, Decode(schema, raw), timeTail, key) {
      DateRead(schema, raw, key);
    }
    forall key | key in FLAG_KEYS ensures ReadsFlag(raw, Decode(schema, raw), key) { FlagRead(schema, raw, key); }
    forall key | key in COUNT_KEYS ensures ReadsCount(raw, Decode(schema, raw), key) { CountRead(schema, raw, key); }
    forall key | key in MONEY_KEYS ensures ReadsMoney(raw, Decode(schema, raw), key) { MoneyRead(schema, raw, key); }
    TextsRead(schema, raw, "tagIds");
    BankRead(schema, raw, "bankAccount1");
    DocumentRaw(timeTail, raw);
  }

  lemma DocumentRaw(timeTail: string -> bool, raw: map<string, Value>)
    ensures KeepsRaw(raw, Decode(Schema(DocumentKinds(), timeTail), raw), SIMPLE_KEYS)
  {
    DocumentTable();
    RawKept(Schema(DocumentKinds(), timeTail), raw, SIMPLE_KEYS);
  }

  ghost predicate CompanyReads(raw: map<string, Value>, a: Attributes) {
    && (forall key :: key in COMPANY_KEYS ==> ReadsTexts(raw, a, key))
    && KeepsRaw(raw, a, COMPANY_KEYS)
  }

  lemma CompanyDecodes(timeTail: string -> bool, raw: map<string, Value>)
    ensures CompanyReads(raw, Decode(Schema(CompanyKinds(), timeTail), raw))
  {
    var schema := Schema(CompanyKinds(), timeTail);
    assert CompanyKinds().Keys == COMPANY_KEYS && forall key :: key in COMPANY_KEYS ==> CompanyKinds()[key] == Texts;
    forall key | key in COMPANY_KEYS ensures ReadsTexts(raw, Decode(schema, raw), key) {
      TextsRead(schema, raw, key);
    }
    RawKept(schema, raw, COMPANY_KEYS);
  }

  /** json.Unmarshal into a new document struct. */
  method UnmarshalDocument(data: Value, timeTail: string -> bool) returns (ok: bool, d: AttributeStruct)
    ensures fresh(d) && (ok <==> data.Obj? || data.Null?)
    ensures data.Obj? ==> DocumentReads(data.fields, timeTail, d.View())
    ensures data.Null? ==> DocumentReads(map[], timeTail, d.View())
  {
    d := new AttributeStruct(Schema(DocumentKinds(), timeTail));
    ok := d.UnmarshalJSON(data);
    DocumentDecodes(timeTail, if data.Obj? then data.fields else map[]);
  }

  method UnmarshalCompany(data: Value, timeTail: string -> bool) returns (ok: bool, d: AttributeStruct)
    ensures fresh(d) && (ok <==> data.Obj? || data.Null?)
    ensures data.Obj? ==> CompanyReads(data.fields, d.View())
    ensures data.Null? ==> CompanyReads(map[], d.View())
  {
    d := new AttributeStruct(Schema(CompanyKinds(), timeTail));
    ok := d.UnmarshalJSON(data);
    CompanyDecodes(timeTail, if data.Obj? then data.fields else map[]);
  }

  // ---------------------------------------------------------------- what is sent back

  /** The member that MarshalJSON writes for a field. */
  ghost predicate Writes(f: Field, out: map<string, Value>, key: string) {
    && key in out && out[key].Obj?
    && match f
       case TextField(s) => out[key].fields == map["value" := Str(s), "type" := Str("TEXT")]
       case FlagField(b) => b.Some? && out[key].fields == map["value" := Bool(b.value), "type" := Str("BOOLEAN")]
       case CountField(n) => out[key].fields == map["value" := Num(Integer(n)), "type" := Str("INTEGER")]
       case DateField(t) => t.Some? && out[key].fields == map["value" := Str(t.value.date), "type" := Str("DATE")]
       case TextsField(list) =>
         && out[key].fields.Keys == {"value", "containedType", "type"}
         && out[key].fields["containedType"] == Str("TEXT") && out[key].fields["type"] == Str("LIST")
         && out[key].fields["value"].Arr? && |out[key].fields["value"].elems| == |list|
         && forall i :: 0 <= i < |list| ==> out[key].fields["value"].elems[i] == Str(list[i])
       case _ => false
  }

  /** The fields that are not sent: the empty ones and the groups. */
  predicate IsSilent(f: Field) {
    f in {TextField(""), TextsField([]), FlagField(None), CountField(0), DateField(None)}
    || f.MoneyField? || f.BankField?
  }

  /** Every field that is set is sent under its key; all else comes from RawExtra. */
  lemma EncodedOnWire(a: Attributes, key: string)
    ensures key in a.typed && !IsSilent(a.typed[key]) ==> Writes(a.typed[key], Encode(a), key)
    ensures key !in a.typed || IsSilent(a.typed[key]) ==>
              && (key in Encode(a) <==> key in a.rawExtra)
              && (key in a.rawExtra ==> Encode(a)[key] == a.rawExtra[key])
  {
    if key in a.typed && !IsSilent(a.typed[key]) {
      var f := a.typed[key];
      match f
      case TextField(s) => assert EncodeField(f) == Simple(Str(s), "TEXT");
      case FlagField(b) => assert EncodeField(f) == Simple(Bool(b.value), "BOOLEAN");
      case CountField(n) => assert EncodeField(f) == Simple(Num(Integer(n)), "INTEGER");
      case DateField(t) => assert EncodeField(f) == Simple(Str(t.value.date), "DATE");
      case TextsField(list) => assert EncodeField(f).value.fields.Keys == {"value", "containedType", "type"};
    }
  }
}
