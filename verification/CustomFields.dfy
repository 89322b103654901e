/**
 A login's custom fields: merging the editor's layout into the stored sections.
 Stored secrets are looked up by field id among the fields the item has now.
 What the single values may look like (label and title cleaning, plain values,
 password length, one-time-password setups) is a parameter, `Rules`.
 A text is its bytes, one character each.
 */
module CustomFields {
  import opened Wrappers

  const MAX_SECTIONS: nat := 20
  const MAX_FIELDS: nat := 100
  const MAX_TOTAL_BYTES: nat := 256 * 1024

  type Id = nat

  datatype PlainKind = Text | Url | Email | Phone | Date | Address

  datatype Kind = OfPlain(plain: PlainKind) | OfPassword | OfOtp

  datatype Content = Line(text: string) | Parts(parts: seq<Option<string>>)

  datatype Totp = Totp(secret: string, algorithm: nat, digits: nat, period: nat)

  datatype Value =
    | Plain(plain: PlainKind, content: Content)
    | Password(password: Option<string>)
    | Otp(otp: Option<Totp>)
  {
    function KindOf(): Kind {
      match this
      case Plain(k, _) => OfPlain(k)
      case Password(_) => OfPassword
      case Otp(_) => OfOtp
    }
  }

  datatype Field = Field(id: Id, labelText: string, value: Value)

  datatype Section = Section(id: Id, title: Option<string>, fields: seq<Field>)

  datatype SecretUpdate = Keep | Set(text: string) | Clear

  datatype ValueInput =
    | PlainInput(plain: PlainKind, content: Content)
    | PasswordInput(password: SecretUpdate)
    | OtpInput(otp: SecretUpdate)
  {
    function KindOf(): Kind {
      match this
      case PlainInput(k, _) => OfPlain(k)
      case PasswordInput(_) => OfPassword
      case OtpInput(_) => OfOtp
    }

    predicate Keeps() {
      (PasswordInput? && password.Keep?) || (OtpInput? && otp.Keep?)
    }
  }

  datatype FieldInput = FieldInput(id: Option<Id>, labelText: string, value: ValueInput)

  datatype SectionInput = SectionInput(id: Option<Id>, title: Option<string>, fields: seq<FieldInput>)

  datatype Refusal = TooManySections | TooManyFields | BadLayout | NeedsLabel | BadValue | TooLarge

  /** The value rules; None is a refusal. */
  datatype Rules = Rules(
    line: Option<string> -> Option<Option<string>>,
    plain: (PlainKind, Content) -> Option<Content>,
    passwordFits: string -> bool,
    isBlank: string -> bool,
    parseTotp: string -> Option<Totp>,
    bytes: Content -> nat)

  // ---------------------------------------------------------------- one value

  /** The rule for a login's password and for Password fields. */
  function ApplySecret(update: SecretUpdate, current: Option<string>): Option<string> {
    match update
    case Keep => current
    case Clear => None
    case Set(v) => if v == "" then None else Some(v)
  }

  function ApplyTotp(rules: Rules, update: SecretUpdate, current: Option<Totp>): Option<Option<Totp>> {
    match update
    case Keep => Some(current)
    case Clear => Some(None)
    case Set(v) =>
      if rules.isBlank(v) then Some(None)
      else match rules.parseTotp(v) case None => None case Some(c) => Some(Some(c))
  }

  function MergedValue(rules: Rules, value: ValueInput, before: Option<Value>): Option<Value> {
    match value
    case PlainInput(k, c) =>
      (match rules.plain(k, c) case None => None case Some(cleaned) => Some(Plain(k, cleaned)))
    case PasswordInput(update) =>
      var p := ApplySecret(update, if before.Some? && before.value.Password? then before.value.password else None);
      if p.Some? && !rules.passwordFits(p.value) then None else Some(Password(p))
    case OtpInput(update) =>
      match ApplyTotp(rules, update, if before.Some? && before.value.Otp? then before.value.otp else None)
      case None => None
      case Some(c) => Some(Otp(c))
  }

  function Label(rules: Rules, text: string): Option<string> {
    match rules.line(Some(text)) case None => None case Some(cleaned) => cleaned
  }

  // ---------------------------------------------------------------- the stored fields by id

  function AllFields(sections: seq<Section>): seq<Field> {
    if sections == [] then [] else AllFields(sections[..|sections| - 1]) + sections[|sections| - 1].fields
  }

  /** As the map is collected: of two fields with one id the later one counts. */
  function ById(fields: seq<Field>): (r: map<Id, Value>)
    ensures forall id :: id in r <==> exists k :: 0 <= k < |fields| && fields[k].id == id
  {
    if fields == [] then map[]
    else ById(fields[..|fields| - 1])[fields[|fields| - 1].id := fields[|fields| - 1].value]
  }

  function SectionIds(sections: seq<Section>): set<Id> {
    set s | s in sections :: s.id
  }

  // ---------------------------------------------------------------- what is accepted

  function AllInputs(input: seq<SectionInput>): seq<FieldInput> {
    if input == [] then [] else AllInputs(input[..|input| - 1]) + input[|input| - 1].fields
  }

  /** No id named twice, and every one named is among the known ones. */
  predicate NamedOnce(ids: seq<Option<Id>>, known: set<Id>) {
    && (forall i :: 0 <= i < |ids| && ids[i].Some? ==> ids[i].value in known)
    && (forall i, j :: 0 <= i < j < |ids| && ids[i].Some? ==> ids[i] != ids[j])
  }

  function Before(prior: map<Id, Value>, field: FieldInput): Option<Value> {
    if field.id.Some? && field.id.value in prior then Some(prior[field.id.value]) else None
  }

  predicate SameKind(stored: Value, sent: ValueInput) {
    || (stored.Plain? && sent.PlainInput? && stored.plain == sent.plain)
    || (stored.Password? && sent.PasswordInput?)
    || (stored.Otp? && sent.OtpInput?)
  }

  predicate FieldLayoutOk(prior: map<Id, Value>, field: FieldInput) {
    && (field.id.Some? ==> field.id.value in prior && SameKind(prior[field.id.value], field.value))
    && (field.id.None? ==> field.value != PasswordInput(Keep) && field.value != OtpInput(Keep))
  }

  predicate FieldValueOk(rules: Rules, prior: map<Id, Value>, field: FieldInput) {
    Label(rules, field.labelText).Some? && MergedValue(rules, field.value, Before(prior, field)).Some?
  }

  function FieldIds(fields: seq<FieldInput>): seq<Option<Id>> {
    seq(|fields|, k requires 0 <= k < |fields| => fields[k].id)
  }

  function GivenSectionIds(input: seq<SectionInput>): seq<Option<Id>> {
    seq(|input|, k requires 0 <= k < |input| => input[k].id)
  }

  predicate FieldsLayoutOk(prior: map<Id, Value>, fields: seq<FieldInput>) {
    NamedOnce(FieldIds(fields), prior.Keys) && forall k :: 0 <= k < |fields| ==> FieldLayoutOk(prior, fields[k])
  }

  predicate FieldValuesOk(rules: Rules, prior: map<Id, Value>, fields: seq<FieldInput>) {
    forall k :: 0 <= k < |fields| ==> FieldValueOk(rules, prior, fields[k])
  }

  predicate FieldsOk(rules: Rules, prior: map<Id, Value>, fields: seq<FieldInput>) {
    FieldsLayoutOk(prior, fields) && FieldValuesOk(rules, prior, fields)
  }

  predicate TitlesOk(rules: Rules, input: seq<SectionInput>) {
    forall k :: 0 <= k < |input| ==> rules.line(input[k].title).Some?
  }

  predicate SectionsOk(rules: Rules, known: set<Id>, input: seq<SectionInput>) {
    NamedOnce(GivenSectionIds(input), known) && TitlesOk(rules, input)
  }

  /** Every id sent is one of this item's and sent once, kept values have
      somewhere to come from, and no field changes its kind. */
  predicate LayoutOk(current: seq<Section>, input: seq<SectionInput>) {
    && NamedOnce(GivenSectionIds(input), SectionIds(current))
    && FieldsLayoutOk(ById(AllFields(current)), AllInputs(input))
  }

  predicate ValuesOk(rules: Rules, current: seq<Section>, input: seq<SectionInput>) {
    TitlesOk(rules, input) && FieldValuesOk(rules, ById(AllFields(current)), AllInputs(input))
  }

  // ---------------------------------------------------------------- what is stored

  /** The new ids, by the place they are drawn for. */
  datatype NewIds = NewIds(section: nat -> Id, field: (nat, nat) -> Id)

  function MergedField(rules: Rules, prior: map<Id, Value>, field: FieldInput, newId: Id): Field
    requires FieldValueOk(rules, prior, field)
  {
    Field(if field.id.Some? then field.id.value else newId,
          Label(rules, field.labelText).value,
          MergedValue(rules, field.value, Before(prior, field)).value)
  }

  /** Place by place, from the sections as they were before the save. */
  predicate Merges(rules: Rules, current: seq<Section>, input: seq<SectionInput>, newIds: NewIds, out: seq<Section>) {
    |out| == |input| && forall s :: 0 <= s < |input| ==>
        SectionMerges(rules, ById(AllFields(current)), input[s], newIds, s, out[s])
  }

  predicate SectionMerges(rules: Rules, prior: map<Id, Value>, section: SectionInput, newIds: NewIds, s: nat,
                          out: Section)
  {
    && rules.line(section.title).Some?
    && out.id == (if section.id.Some? then section.id.value else newIds.section(s))
    && out.title == rules.line(section.title).value
    && FieldsMerge(rules, prior, section.fields, newIds, s, out.fields)
  }

  predicate FieldsMerge(rules: Rules, prior: map<Id, Value>, fields: seq<FieldInput>, newIds: NewIds, s: nat,
                        out: seq<Field>)
  {
    |out| == |fields| && forall f :: 0 <= f < |fields| ==>
      FieldValueOk(rules, prior, fields[f]) && out[f] == MergedField(rules, prior, fields[f], newIds.field(s, f))
  }

  function ValueBytes(rules: Rules, value: Value): nat {
    match value
    case Plain(_, c) => rules.bytes(c)
    case Password(p) => if p.Some? then |p.value| else 0
    case Otp(c) => if c.Some? then |c.value.secret| else 0
  }

  function FieldsBytes(rules: Rules, fields: seq<Field>): nat {
    if fields == [] then 0
    else FieldsBytes(rules, fields[..|fields| - 1])
         + |fields[|fields| - 1].labelText| + ValueBytes(rules, fields[|fields| - 1].value)
  }

  function TotalBytes(rules: Rules, sections: seq<Section>): nat {
    if sections == [] then 0
    else
      var last := sections[|sections| - 1];
      TotalBytes(rules, sections[..|sections| - 1])
      + (if last.title.Some? then |last.title.value| else 0) + FieldsBytes(rules, last.fields)
  }

  // ---------------------------------------------------------------- every text counts once

  lemma {:induction false} FieldReplaced(rules: Rules, fields: seq<Field>, f: nat, x: Field)
    requires f < |fields|
    ensures FieldsBytes(rules, fields[f := x]) + |fields[f].labelText| + ValueBytes(rules, fields[f].value) ==
            FieldsBytes(rules, fields) + |x.labelText| + ValueBytes(rules, x.value)
  {
    var n := |fields| - 1;
    if f < n {
      FieldReplaced(rules, fields[..n], f, x);
      assert fields[f := x][..n] == fields[..n][f := x];
    } else {
      assert fields[f := x][..n] == fields[..n];
    }
  }

  function SectionBytes(rules: Rules, section: Section): nat {
    (if section.title.Some? then |section.title.value| else 0) + FieldsBytes(rules, section.fields)
  }

  lemma {:induction false} SectionReplaced(rules: Rules, sections: seq<Section>, s: nat, x: Section)
    requires s < |sections|
    ensures TotalBytes(rules, sections[s := x]) + SectionBytes(rules, sections[s]) ==
            TotalBytes(rules, sections) + SectionBytes(rules, x)
  {
    var n := |sections| - 1;
    if s < n {
      SectionReplaced(rules, sections[..n], s, x);
      assert sections[s := x][..n] == sections[..n][s := x];
    } else {
      assert sections[s := x][..n] == sections[..n];
    }
  }

  function WithField(section: Section, f: nat, x: Field): Section
    requires f < |section.fields|
  {
    section.(fields := section.fields[f := x])
  }

  const BLANK := Password(None)

  /** The size of an item counts each title once, and each label and each value: without
      it the item is smaller by just its length. */
  lemma {:induction false} TitleCountsOnce(rules: Rules, sections: seq<Section>, s: nat)
    requires s < |sections|
    ensures TotalBytes(rules, sections) == TotalBytes(rules, sections[s := sections[s].(title := None)])
                                           + if sections[s].title.Some? then |sections[s].title.value| else 0
  {
    SectionReplaced(rules, sections, s, sections[s].(title := None));
  }

  lemma {:induction false} FieldCountsOnce(rules: Rules, sections: seq<Section>, s: nat, f: nat)
    requires s < |sections| && f < |sections[s].fields|
    ensures var field := sections[s].fields[f];
            && TotalBytes(rules, sections) == |field.labelText|
               + TotalBytes(rules, sections[s := WithField(sections[s], f, field.(labelText := ""))])
            && TotalBytes(rules, sections) ==
               TotalBytes(rules, sections[s := WithField(sections[s], f, field.(value := BLANK))])
               + match field.value
                 case Plain(_, content) => rules.bytes(content)
                 case Password(p) => (match p case Some(text) => |text| case None => 0)
                 case Otp(c) => (match c case Some(totp) => |totp.secret| case None => 0)
  {
    var (fields, field) := (sections[s].fields, sections[s].fields[f]);
    var (unlabelled, emptied) := (field.(labelText := ""), field.(value := BLANK));
    SectionReplaced(rules, sections, s, WithField(sections[s], f, unlabelled));
    FieldReplaced(rules, fields, f, unlabelled);
    SectionReplaced(rules, sections, s, WithField(sections[s], f, emptied));
    FieldReplaced(rules, fields, f, emptied);
  }

  /** With no title, no label and no value there is nothing to count. */
  lemma {:induction false} NoTextNoBytes(rules: Rules, sections: seq<Section>)
    requires forall s <- sections :: s.title.None? && forall f <- s.fields :: f.labelText == "" && f.value == BLANK
    ensures TotalBytes(rules, sections) == 0
  {
    if sections != [] {
      var last := sections[|sections| - 1];
      NoTextNoBytes(rules, sections[..|sections| - 1]);
      NoTextInFields(rules, last.fields);
    }
  }

  lemma {:induction false} NoTextInFields(rules: Rules, fields: seq<Field>)
    requires forall f <- fields :: f.labelText == "" && f.value == BLANK
    ensures FieldsBytes(rules, fields) == 0
  {
    if fields != [] {
      NoTextInFields(rules, fields[..|fields| - 1]);
      assert fields[|fields| - 1] in fields;
    }
  }

  // ---------------------------------------------------------------- growing prefixes

  lemma {:induction false} InputsOfPrefix(input: seq<SectionInput>, s: nat)
    requires s <= |input|
    ensures AllInputs(input[..s]) <= AllInputs(input)
  {
    if s < |input| {
      InputsOfPrefix(input[..|input| - 1], s);
      assert input[..|input| - 1][..s] == input[..s];
    } else {
      assert input[..s] == input;
    }
  }

  lemma PrefixOk(rules: Rules, prior: map<Id, Value>, part: seq<FieldInput>, whole: seq<FieldInput>)
    requires part <= whole && FieldsOk(rules, prior, whole)
    ensures FieldsOk(rules, prior, part)
  {
    assert forall k :: 0 <= k < |part| ==> part[k] == whole[k] && FieldIds(part)[k] == FieldIds(whole)[k];
  }

  function Used(fields: seq<FieldInput>): set<Id> {
    set k | 0 <= k < |fields| && fields[k].id.Some? :: fields[k].id.value
  }

  function UsedSections(input: seq<SectionInput>): set<Id> {
    set k | 0 <= k < |input| && input[k].id.Some? :: input[k].id.value
  }

  lemma UsedGrows(fields: seq<FieldInput>, field: FieldInput)
    ensures Used(fields + [field]) == Used(fields) + (if field.id.Some? then {field.id.value} else {})
  {
    var more := fields + [field];
    assert forall k :: 0 <= k < |fields| ==> more[k] == fields[k];
    forall id | id in Used(fields) ensures id in Used(more) {
      var k :| 0 <= k < |fields| && fields[k].id.Some? && fields[k].id.value == id;
      assert more[k].id.value == id;
    }
    assert more[|fields|] == field;
  }

  lemma UsedSectionsGrow(input: seq<SectionInput>, section: SectionInput)
    ensures UsedSections(input + [section]) == UsedSections(input)
            + (if section.id.Some? then {section.id.value} else {})
  {
    var more := input + [section];
    assert forall k :: 0 <= k < |input| ==> more[k] == input[k];
    forall id | id in UsedSections(input) ensures id in UsedSections(more) {
      var k :| 0 <= k < |input| && input[k].id.Some? && input[k].id.value == id;
      assert more[k].id.value == id;
    }
    assert more[|input|] == section;
  }

  /** One more name keeps the names single and known exactly when it is known
      and not used yet. */
  lemma NamedOnceGrows(ids: seq<Option<Id>>, id: Option<Id>, known: set<Id>)
    requires NamedOnce(ids, known)
    ensures NamedOnce(ids + [id], known) <==> id.None? || (id.value in known && id !in ids)
  {
    var more := ids + [id];
    if NamedOnce(more, known) && id.Some? {
      assert more[|ids|] == id;
      forall k | 0 <= k < |ids| ensures ids[k] != id {
        assert more[k] == ids[k];
      }
    }
  }

  lemma FieldsOkGrows(rules: Rules, prior: map<Id, Value>, fields: seq<FieldInput>, field: FieldInput)
    requires FieldsOk(rules, prior, fields)
    ensures FieldsOk(rules, prior, fields + [field]) <==>
            (field.id.Some? ==> field.id.value !in Used(fields))
            && FieldLayoutOk(prior, field) && FieldValueOk(rules, prior, field)
  {
    var more := fields + [field];
    assert FieldIds(more) == FieldIds(fields) + [field.id];
    NamedOnceGrows(FieldIds(fields), field.id, prior.Keys);
    UsedMeansNamed(fields, field.id);
    assert more[|fields|] == field;
    assert forall k :: 0 <= k < |fields| ==> more[k] == fields[k];
  }

  lemma UsedMeansNamed(fields: seq<FieldInput>, id: Option<Id>)
    ensures id.Some? ==> (id in FieldIds(fields) <==> id.value in Used(fields))
  {
    if id.Some? && id in FieldIds(fields) {
      var k :| 0 <= k < |fields| && FieldIds(fields)[k] == id;
      assert fields[k].id.value in Used(fields);
    }
    if id.Some? && id.value in Used(fields) {
      var k :| 0 <= k < |fields| && fields[k].id.Some? && fields[k].id.value == id.value;
      assert FieldIds(fields)[k] == id;
    }
  }

  lemma SectionsOkGrows(rules: Rules, known: set<Id>, input: seq<SectionInput>, section: SectionInput)
    requires SectionsOk(rules, known, input)
    ensures SectionsOk(rules, known, input + [section]) <==>
            (section.id.Some? ==> section.id.value in known && section.id.value !in UsedSections(input))
            && rules.line(section.title).Some?
  {
    var more := input + [section];
    var ids := GivenSectionIds(input);
    assert GivenSectionIds(more) == ids + [section.id];
    NamedOnceGrows(ids, section.id, known);
    if section.id.Some? && section.id in ids {
      var k :| 0 <= k < |input| && ids[k] == section.id;
      assert input[k].id.value in UsedSections(input);
    }
    if section.id.Some? && section.id.value in UsedSections(input) {
      var k :| 0 <= k < |input| && input[k].id.Some? && input[k].id.value == section.id.value;
      assert ids[k] == section.id;
    }
    assert more[|input|] == section;
    assert forall k :: 0 <= k < |input| ==> more[k] == input[k];
  }

  // ---------------------------------------------------------------- the code

  // ---------------------------------------------------------------- what was typed is stored

  /** A field as sent, and as stored: the cleaned label; a plain value as its rule
      cleans it; a new secret exactly as it was typed, or read as a one-time-password
      setup; an emptied one gone; a kept one as it was stored under that id. */
  predicate StoredAsSent(rules: Rules, prior: map<Id, Value>, sent: FieldInput, stored: Field) {
    && rules.line(Some(sent.labelText)) == Some(Some(stored.labelText))
    && (sent.id.Some? ==> stored.id == sent.id.value)
    && match sent.value
       case PlainInput(k, c) => rules.plain(k, c).Some? && stored.value == Plain(k, rules.plain(k, c).value)
       case PasswordInput(Set(text)) =>
         stored.value == Password(if text == "" then None else Some(text)) && (text != "" ==> rules.passwordFits(text))
       case PasswordInput(Clear) => stored.value == Password(None)
       case PasswordInput(Keep) => sent.id.Some? && sent.id.value in prior && stored.value == prior[sent.id.value]
       case OtpInput(Set(text)) =>
         if rules.isBlank(text) then stored.value == Otp(None)
         else rules.parseTotp(text).Some? && stored.value == Otp(rules.parseTotp(text))
       case OtpInput(Clear) => stored.value == Otp(None)
       case OtpInput(Keep) => sent.id.Some? && sent.id.value in prior && stored.value == prior[sent.id.value]
  }

  lemma FieldStoredAsSent(rules: Rules, prior: map<Id, Value>, sent: FieldInput, newId: Id)
    requires FieldLayoutOk(prior, sent) && FieldValueOk(rules, prior, sent)
    ensures StoredAsSent(rules, prior, sent, MergedField(rules, prior, sent, newId))
    ensures sent.id.None? ==> MergedField(rules, prior, sent, newId).id == newId
  {
  }

  /** The values a save is refused for: an unreadable or empty label, a plain value its
      rule refuses, a password that does not fit, new or kept, and a one-time-password
      text that does not parse. */
  lemma {:induction false} ValueAcceptedExactly(rules: Rules, prior: map<Id, Value>, sent: FieldInput)
    requires FieldLayoutOk(prior, sent)
    ensures FieldValueOk(rules, prior, sent) <==>
              && rules.line(Some(sent.labelText)).Some? && rules.line(Some(sent.labelText)).value.Some?
              && match sent.value
                 case PlainInput(k, c) => rules.plain(k, c).Some?
                 case PasswordInput(Set(text)) => text == "" || rules.passwordFits(text)
                 case PasswordInput(Clear) => true
                 case PasswordInput(Keep) =>
                   var kept := prior[sent.id.value].password;
                   kept.None? || rules.passwordFits(kept.value)
                 case OtpInput(Set(text)) => rules.isBlank(text) || rules.parseTotp(text).Some?
                 case OtpInput(_) => true
  {
  }

  method MergeField(rules: Rules, prior: map<Id, Value>, field: FieldInput, newId: Id)
    returns (r: Result<Field, Refusal>, left: map<Id, Value>)
    ensures r.Ok? <==> FieldLayoutOk(prior, field) && FieldValueOk(rules, prior, field)
    ensures r.Ok? ==> r.value == MergedField(rules, prior, field, newId)
    ensures r.Ok? ==> StoredAsSent(rules, prior, field, r.value) && (field.id.None? ==> r.value.id == newId)
    ensures r.Ok? ==> left == prior - Used([field])
    ensures r == Err(BadLayout) ==> !FieldLayoutOk(prior, field)
    ensures r == Err(NeedsLabel) ==> rules.line(Some(field.labelText)) == Some(None)
    ensures r.Err? ==> r.error in {BadLayout, BadValue, NeedsLabel}
    ensures r.Err? && r.error != BadLayout ==>
              !FieldValueOk(rules, prior, field) && (field.id.Some? ==> field.id.value in prior)
  {
    left := prior;
    UsedGrows([], field);
    assert [] + [field] == [field];
    var id, before := newId, None;
    if field.id.Some? {
      id := field.id.value;
      if id !in prior {
        return Err(BadLayout), left;
      }
      before := Some(prior[id]);
      left := prior - {id};
    }
    if before.Some? && before.value.KindOf() != field.value.KindOf() {
      return Err(BadLayout), left;
    }
    var cleaned := rules.line(Some(field.labelText));
    if cleaned.None? {
      return Err(BadValue), left;
    }
    if cleaned.value.None? {
      return Err(NeedsLabel), left;
    }
    if before.None? && field.value.Keeps() {
      return Err(BadLayout), left;
    }
    var value := MergedValue(rules, field.value, before);
    if value.None? {
      return Err(BadValue), left;
    }
    r := Ok(Field(id, cleaned.value.value, value.value));
  }

  /** With the ids used so far taken out, a field passes exactly when it would
      pass beside the earlier ones, and it finds the value stored at the start. */
  lemma {:induction false} LookupIsAsStored(rules: Rules, prior: map<Id, Value>, done: seq<FieldInput>,
                                            field: FieldInput, newId: Id)
    requires FieldsOk(rules, prior, done)
    ensures var left := prior - Used(done);
            && (FieldLayoutOk(left, field) && FieldValueOk(rules, left, field) <==>
                FieldsOk(rules, prior, done + [field]))
            && (FieldLayoutOk(left, field) <==> FieldsLayoutOk(prior, done + [field]))
            && (FieldsOk(rules, prior, done + [field]) ==>
                  FieldValueOk(rules, prior, field)
                  && MergedField(rules, left, field, newId) == MergedField(rules, prior, field, newId)
                  && left - Used([field]) == prior - Used(done + [field]))
  {
    FieldsOkGrows(rules, prior, done, field);
    LayoutGrows(prior, done, field);
    UsedGrows(done, field);
    UsedGrows([], field);
    assert [] + [field] == [field];
  }

  lemma LayoutGrows(prior: map<Id, Value>, fields: seq<FieldInput>, field: FieldInput)
    requires FieldsLayoutOk(prior, fields)
    ensures FieldsLayoutOk(prior, fields + [field]) <==>
            (field.id.Some? ==> field.id.value !in Used(fields)) && FieldLayoutOk(prior, field)
  {
    var more := fields + [field];
    assert FieldIds(more) == FieldIds(fields) + [field.id];
    NamedOnceGrows(FieldIds(fields), field.id, prior.Keys);
    UsedMeansNamed(fields, field.id);
    assert more[|fields|] == field;
    assert forall k :: 0 <= k < |fields| ==> more[k] == fields[k];
  }

  method MergeFields(rules: Rules, ghost prior: map<Id, Value>, ghost done: seq<FieldInput>, stored: map<Id, Value>,
                     fields: seq<FieldInput>, newIds: NewIds, s: nat)
    returns (r: Result<seq<Field>, Refusal>, left: map<Id, Value>)
    requires FieldsOk(rules, prior, done) && stored == prior - Used(done)
    ensures r.Ok? <==> FieldsOk(rules, prior, done + fields)
    ensures r.Ok? ==> FieldsMerge(rules, prior, fields, newIds, s, r.value) && left == prior - Used(done + fields)
    ensures r == Err(BadLayout) ==> !FieldsLayoutOk(prior, done + fields)
    ensures r.Err? ==> r.error in {BadLayout, BadValue, NeedsLabel}
    ensures r.Err? && r.error != BadLayout ==> !FieldValuesOk(rules, prior, done + fields)
  {
    var out: seq<Field> := [];
    left := stored;
    assert done + fields[..0] == done;
    for f := 0 to |fields|
      invariant FieldsOk(rules, prior, done + fields[..f])
      invariant left == prior - Used(done + fields[..f])
      invariant FieldsMerge(rules, prior, fields[..f], newIds, s, out)
    {
      ghost var before := done + fields[..f];
      assert before + [fields[f]] == done + fields[..f + 1];
      LookupIsAsStored(rules, prior, before, fields[f], newIds.field(s, f));
      StopsThere(rules, prior, before, fields[f], done + fields);
      var merged, rest := MergeField(rules, left, fields[f], newIds.field(s, f));
      if merged.Err? {
        return Err(merged.error), rest;
      }
      out := out + [merged.value];
      left := rest;
    }
    assert fields[..|fields|] == fields;
    r := Ok(out);
  }

  /** A field refused where it stands makes the whole layout unacceptable. */
  lemma StopsThere(rules: Rules, prior: map<Id, Value>, done: seq<FieldInput>, field: FieldInput, all: seq<FieldInput>)
    requires FieldsOk(rules, prior, done) && done + [field] <= all
    ensures var left := prior - Used(done);
            && (!FieldLayoutOk(left, field) ==> !FieldsLayoutOk(prior, all))
            && (FieldsOk(rules, prior, all) ==> FieldsOk(rules, prior, done + [field]))
            && (!FieldValueOk(rules, left, field) && (field.id.Some? ==> field.id.value in left) ==>
                  !FieldValuesOk(rules, prior, all))
  {
    LookupIsAsStored(rules, prior, done, field, 0);
    if FieldsLayoutOk(prior, all) {
      LayoutPrefix(prior, done + [field], all);
    }
    if FieldsOk(rules, prior, all) {
      PrefixOk(rules, prior, done + [field], all);
    }
    assert all[|done|] == field;
    LayoutGrows(prior, done, field);
  }

  lemma LayoutPrefix(prior: map<Id, Value>, part: seq<FieldInput>, whole: seq<FieldInput>)
    requires part <= whole && FieldsLayoutOk(prior, whole)
    ensures FieldsLayoutOk(prior, part)
  {
    assert forall k :: 0 <= k < |part| ==> part[k] == whole[k] && FieldIds(part)[k] == FieldIds(whole)[k];
  }

  lemma {:induction false} FlatInput(input: seq<SectionInput>, s: nat, f: nat) returns (k: nat)
    requires s < |input| && f < |input[s].fields|
    ensures k < |AllInputs(input)| && AllInputs(input)[k] == input[s].fields[f]
  {
    var front := input[..|input| - 1];
    if s == |input| - 1 {
      k := |AllInputs(front)| + f;
    } else {
      k := FlatInput(front, s, f);
    }
  }

  /** Place by place, what was sent is stored. */
  ghost predicate AllStoredAsSent(rules: Rules, current: seq<Section>, input: seq<SectionInput>, newIds: NewIds,
                                  out: seq<Section>)
  {
    |out| == |input| && forall s :: 0 <= s < |input| ==>
      && rules.line(input[s].title) == Some(out[s].title)
      && out[s].id == (if input[s].id.Some? then input[s].id.value else newIds.section(s))
      && |out[s].fields| == |input[s].fields|
      && forall f :: 0 <= f < |input[s].fields| ==>
           && StoredAsSent(rules, ById(AllFields(current)), input[s].fields[f], out[s].fields[f])
           && (input[s].fields[f].id.None? ==> out[s].fields[f].id == newIds.field(s, f))
  }

  lemma FieldAtStoredAsSent(rules: Rules, current: seq<Section>, input: seq<SectionInput>,
                                                  newIds: NewIds, out: seq<Section>, s: nat, f: nat)
    requires LayoutOk(current, input) && Merges(rules, current, input, newIds, out)
    requires s < |input| && f < |input[s].fields|
    ensures |out| == |input| && |out[s].fields| == |input[s].fields|
    ensures StoredAsSent(rules, ById(AllFields(current)), input[s].fields[f], out[s].fields[f])
    ensures input[s].fields[f].id.None? ==> out[s].fields[f].id == newIds.field(s, f)
  {
    assert SectionMerges(rules, ById(AllFields(current)), input[s], newIds, s, out[s]);
    var k := FlatInput(input, s, f);
    FieldStoredAsSent(rules, ById(AllFields(current)), input[s].fields[f], newIds.field(s, f));
  }

  /** Every field of an accepted save, at its place, holds what was sent for it; a new
      one under the id drawn for that place. */
  lemma {:induction false} EverythingStoredAsSent(rules: Rules, current: seq<Section>, input: seq<SectionInput>,
                                                  newIds: NewIds, out: seq<Section>)
    requires LayoutOk(current, input) && Merges(rules, current, input, newIds, out)
    ensures AllStoredAsSent(rules, current, input, newIds, out)
  {
    forall s, f | 0 <= s < |input| && 0 <= f < |input[s].fields|
      ensures |out[s].fields| == |input[s].fields|
      ensures StoredAsSent(rules, ById(AllFields(current)), input[s].fields[f], out[s].fields[f])
      ensures input[s].fields[f].id.None? ==> out[s].fields[f].id == newIds.field(s, f)
    {
      FieldAtStoredAsSent(rules, current, input, newIds, out, s, f);
    }
    forall s | 0 <= s < |input| ensures SectionMerges(rules, ById(AllFields(current)), input[s], newIds, s, out[s]) {
    }
  }

  /** What becomes of a layout sent by the editor. */
  ghost predicate Outcome(rules: Rules, input: seq<SectionInput>, current: seq<Section>, newIds: NewIds,
                          r: Result<seq<Section>, Refusal>)
  {
    && (r == Err(TooManySections) <==> |input| > MAX_SECTIONS)
    && (r == Err(TooManyFields) <==> |input| <= MAX_SECTIONS && |AllInputs(input)| > MAX_FIELDS)
    && (r == Err(BadLayout) ==> !LayoutOk(current, input))
    && (r == Err(BadValue) || r == Err(NeedsLabel) ==> !ValuesOk(rules, current, input))
    && (r == Err(TooLarge) ==>
          && LayoutOk(current, input) && ValuesOk(rules, current, input)
          && forall out | Merges(rules, current, input, newIds, out) :: TotalBytes(rules, out) > MAX_TOTAL_BYTES)
    && (r.Ok? ==>
          && LayoutOk(current, input) && ValuesOk(rules, current, input)
          && Merges(rules, current, input, newIds, r.value) && TotalBytes(rules, r.value) <= MAX_TOTAL_BYTES
          && AllStoredAsSent(rules, current, input, newIds, r.value))
  }

  method ApplySections(rules: Rules, input: Option<seq<SectionInput>>, current: seq<Section>, newIds: NewIds)
    returns (r: Result<seq<Section>, Refusal>)
    ensures if input.None? then r == Ok(current) else Outcome(rules, input.value, current, newIds, r)
  {
    if input.None? {
      return Ok(current);
    }
    var sections := input.value;
    if |sections| > MAX_SECTIONS {
      return Err(TooManySections);
    }
    if |AllInputs(sections)| > MAX_FIELDS {
      return Err(TooManyFields);
    }
    var merged := MergeSections(rules, sections, current, newIds);
    if merged.Err? {
      return merged;
    }
    if TotalBytes(rules, merged.value) > MAX_TOTAL_BYTES {
      forall out | Merges(rules, current, sections, newIds, out) ensures out == merged.value {
        MergeIsUnique(rules, current, sections, newIds, out, merged.value);
      }
      return Err(TooLarge);
    }
    EverythingStoredAsSent(rules, current, sections, newIds, merged.value);
    r := merged;
  }

  lemma MergeIsUnique(rules: Rules, current: seq<Section>, input: seq<SectionInput>, newIds: NewIds,
                      x: seq<Section>, y: seq<Section>)
    requires Merges(rules, current, input, newIds, x) && Merges(rules, current, input, newIds, y)
    ensures x == y
  {
    forall s | 0 <= s < |input| ensures x[s] == y[s] {
      assert x[s].fields == y[s].fields;
    }
  }

  method MergeSections(rules: Rules, input: seq<SectionInput>, current: seq<Section>, newIds: NewIds)
    returns (r: Result<seq<Section>, Refusal>)
    ensures r.Ok? <==> LayoutOk(current, input) && ValuesOk(rules, current, input)
    ensures r.Ok? ==> Merges(rules, current, input, newIds, r.value)
    ensures r.Err? ==> r.error in {BadLayout, BadValue, NeedsLabel}
    ensures r == Err(BadLayout) ==> !LayoutOk(current, input)
    ensures r.Err? && r.error != BadLayout ==> !ValuesOk(rules, current, input)
  {
    var sectionIds := SectionIds(current);
    var prior := ById(AllFields(current));
    ghost var known, stored := sectionIds, prior;
    var out: seq<Section> := [];
    assert input[..0] == [];
    for s := 0 to |input|
      invariant SectionsOk(rules, known, input[..s]) && FieldsOk(rules, stored, AllInputs(input[..s]))
      invariant sectionIds == known - UsedSections(input[..s])
      invariant prior == stored - Used(AllInputs(input[..s]))
      invariant Merges(rules, current, input[..s], newIds, out)
    {
      var section := input[s];
      ghost var done := AllInputs(input[..s]);
      NextSection(input, s);
      SectionsOkGrows(rules, known, input[..s], section);
      UsedSectionsGrow(input[..s], section);
      WholeCoversPrefix(rules, current, input, s + 1);
      var id := newIds.section(s);
      if section.id.Some? {
        id := section.id.value;
        if id !in sectionIds {
          NamedSectionMissing(rules, known, input, s);
          return Err(BadLayout);
        }
        sectionIds := sectionIds - {id};
      }
      var title := rules.line(section.title);
      if title.None? {
        return Err(BadValue);
      }
      var fields, left := MergeFields(rules, stored, done, prior, section.fields, newIds, s);
      if fields.Err? {
        return Err(fields.error);
      }
      prior := left;
      out := out + [Section(id, title.value, fields.value)];
    }
    assert input[..|input|] == input;
    r := Ok(out);
  }

  lemma NextSection(input: seq<SectionInput>, s: nat)
    requires s < |input|
    ensures input[..s + 1] == input[..s] + [input[s]]
    ensures AllInputs(input[..s + 1]) == AllInputs(input[..s]) + input[s].fields
  {
    assert input[..s + 1][..s] == input[..s];
  }

  lemma WholeCoversPrefix(rules: Rules, current: seq<Section>, input: seq<SectionInput>, s: nat)
    requires s <= |input|
    ensures LayoutOk(current, input) ==> LayoutOk(current, input[..s])
    ensures ValuesOk(rules, current, input) ==> ValuesOk(rules, current, input[..s])
  {
    InputsOfPrefix(input, s);
    assert forall k :: 0 <= k < s ==> input[..s][k] == input[k];
    assert forall k :: 0 <= k < s ==> GivenSectionIds(input[..s])[k] == GivenSectionIds(input)[k];
    if LayoutOk(current, input) {
      LayoutPrefix(ById(AllFields(current)), AllInputs(input[..s]), AllInputs(input));
    }
  }

  lemma NamedSectionMissing(rules: Rules, known: set<Id>, input: seq<SectionInput>, s: nat)
    requires s < |input| && input[s].id.Some? && input[s].id.value !in known - UsedSections(input[..s])
    ensures !NamedOnce(GivenSectionIds(input), known)
  {
    var ids := GivenSectionIds(input);
    assert ids[s] == input[s].id;
    if input[s].id.value in UsedSections(input[..s]) {
      var k :| 0 <= k < s && input[k].id.Some? && input[k].id.value == input[s].id.value;
      assert ids[k] == ids[s];
    }
  }

  // ---------------------------------------------------------------- secrets never move

  predicate IsSecret(value: Value) {
    (value.Password? && value.password.Some?) || (value.Otp? && value.otp.Some?)
  }

  /** The input gives this very secret itself. */
  predicate Sets(rules: Rules, input: ValueInput, value: Value) {
    || (input.PasswordInput? && input.password.Set? && value == Password(Some(input.password.text)))
    || (input.OtpInput? && input.otp.Set? && value == Otp(rules.parseTotp(input.otp.text)))
  }

  predicate Holds(sections: seq<Section>, id: Id, value: Value) {
    exists k :: 0 <= k < |AllFields(sections)| && AllFields(sections)[k].id == id
        && AllFields(sections)[k].value == value
  }

  lemma SecretSource(rules: Rules, given: ValueInput, before: Option<Value>, value: Value)
    requires MergedValue(rules, given, before) == Some(value) && IsSecret(value)
    ensures Sets(rules, given, value) || (given.Keeps() && before == Some(value))
  {
  }

  /** A password or one-time-password setup in the result was set at this very
      place by this save, or the same item held it under the same field id. */
  lemma {:induction false} SecretsNeverMove(rules: Rules, current: seq<Section>, input: seq<SectionInput>,
                                            newIds: NewIds,
                                            out: seq<Section>, s: nat, f: nat)
    requires Merges(rules, current, input, newIds, out)
    requires LayoutOk(current, input)
    requires s < |out| && f < |out[s].fields| && IsSecret(out[s].fields[f].value)
    ensures var (given, stored) := (input[s].fields[f], out[s].fields[f]);
            || Sets(rules, given.value, stored.value)
            || (given.value.Keeps() && given.id == Some(stored.id) && Holds(current, stored.id, stored.value))
  {
    var prior := ById(AllFields(current));
    assert SectionMerges(rules, prior, input[s], newIds, s, out[s]);
    var k := FlatInput(input, s, f);
    var (given, stored) := (input[s].fields[f], out[s].fields[f]);
    assert FieldLayoutOk(prior, given);
    SecretSource(rules, given.value, Before(prior, given), stored.value);
    if given.value.Keeps() {
      StoredValue(AllFields(current), given.id.value);
    }
  }

  lemma {:induction false} StoredValue(fields: seq<Field>, id: Id)
    requires id in ById(fields)
    ensures exists k :: 0 <= k < |fields| && fields[k].id == id && fields[k].value == ById(fields)[id]
  {
    var front := fields[..|fields| - 1];
    if fields[|fields| - 1].id != id {
      StoredValue(front, id);
      var k :| 0 <= k < |front| && front[k].id == id && front[k].value == ById(front)[id];
      assert fields[k] == front[k];
    }
  }

  /** Where the f-th field of section s sits among all of them. */
  /** The section and the place in it of the k-th of all fields. */
  lemma {:induction false} PlaceOf(sections: seq<Section>, k: nat) returns (s: nat, f: nat)
    requires k < |AllFields(sections)|
    ensures s < |sections| && f < |sections[s].fields| && AllFields(sections)[k] == sections[s].fields[f]
  {
    var front := sections[..|sections| - 1];
    if k < |AllFields(front)| {
      s, f := PlaceOf(front, k);
    } else {
      s, f := |front|, k - |AllFields(front)|;
    }
  }

  // ---------------------------------------------------------------- over whole runs of saves

  datatype Save = Save(input: seq<SectionInput>, newIds: NewIds, out: seq<Section>)

  /** Accepted saves of one item, each from what the one before it left. */
  ghost predicate Saved(rules: Rules, start: seq<Section>, run: seq<Save>, end: seq<Section>) {
    if run == [] then end == start
    else
      var last := run[|run| - 1];
      exists mid :: Saved(rules, start, run[..|run| - 1], mid) && LayoutOk(mid, last.input)
                    && Merges(rules, mid, last.input, last.newIds, last.out) && end == last.out
  }

  predicate SetBy(rules: Rules, save: Save, id: Id, value: Value) {
    exists s, f :: 0 <= s < |save.out| && s < |save.input| && 0 <= f < |save.out[s].fields|
        && f < |save.input[s].fields|
                   && save.out[s].fields[f].id == id && Sets(rules, save.input[s].fields[f].value, value)
  }

  /** Over any run of saves a field holds only a secret that was set under that
      field's own id, or that it held under that id at the start. */
  lemma {:induction false} SecretsStayUnderTheirId(rules: Rules, start: seq<Section>, run: seq<Save>, end: seq<Section>,
                                                   id: Id, value: Value)
    requires Saved(rules, start, run, end) && IsSecret(value) && Holds(end, id, value)
    ensures Holds(start, id, value) || exists n :: 0 <= n < |run| && SetBy(rules, run[n], id, value)
  {
    if run != [] {
      var last := run[|run| - 1];
      var earlier := run[..|run| - 1];
      var mid :| Saved(rules, start, earlier, mid) && LayoutOk(mid, last.input)
                 && Merges(rules, mid, last.input, last.newIds, last.out) && end == last.out;
      var k :| 0 <= k < |AllFields(end)| && AllFields(end)[k].id == id && AllFields(end)[k].value == value;
      var s, f := PlaceOf(end, k);
      SecretsNeverMove(rules, mid, last.input, last.newIds, end, s, f);
      if Holds(mid, id, value) {
        SecretsStayUnderTheirId(rules, start, earlier, mid, id, value);
        if n :| 0 <= n < |earlier| && SetBy(rules, earlier[n], id, value) {
          assert run[n] == earlier[n];
        }
      } else {
        assert SectionMerges(rules, ById(AllFields(mid)), last.input[s], last.newIds, s, last.out[s]);
        assert SetBy(rules, run[|run| - 1], id, value);
      }
    }
  }

  // ---------------------------------------------------------------- ids stay distinct

  predicate DistinctIds(sections: seq<Section>) {
    && (forall i, j :: 0 <= i < j < |AllFields(sections)| ==> AllFields(sections)[i].id != AllFields(sections)[j].id)
    && (forall i, j :: 0 <= i < j < |sections| ==> sections[i].id != sections[j].id)
  }

  /** The ids drawn are all different and none is in use. */
  ghost predicate AreNew(newIds: NewIds, current: seq<Section>) {
    && (forall s: nat, f: nat, t: nat, g: nat :: newIds.field(s, f) == newIds.field(t, g) ==> s == t && f == g)
    && (forall s: nat, f: nat :: newIds.field(s, f) !in ById(AllFields(current)))
    && (forall s: nat, t: nat :: newIds.section(s) == newIds.section(t) ==> s == t)
    && (forall s: nat :: newIds.section(s) !in SectionIds(current))
  }

  function FlatNewIds(input: seq<SectionInput>, newIds: NewIds): (r: seq<Id>)
    ensures |r| == |AllInputs(input)|
  {
    if input == [] then []
    else
      var n := |input| - 1;
      FlatNewIds(input[..n], newIds) + seq(|input[n].fields|, f requires 0 <= f => newIds.field(n, f))
  }

  ghost predicate DrawnBefore(newIds: NewIds, id: Id, n: nat) {
    exists s: nat, f: nat :: s < n && id == newIds.field(s, f)
  }

  lemma {:induction false} FlatNewIdsDiffer(input: seq<SectionInput>, newIds: NewIds, current: seq<Section>)
    requires AreNew(newIds, current)
    ensures forall k :: 0 <= k < |AllInputs(input)| ==> DrawnBefore(newIds, FlatNewIds(input, newIds)[k], |input|)
    ensures forall j, k :: 0 <= j < k < |AllInputs(input)| ==>
            FlatNewIds(input, newIds)[j] != FlatNewIds(input, newIds)[k]
  {
    if input != [] {
      var n := |input| - 1;
      var front := FlatNewIds(input[..n], newIds);
      FlatNewIdsDiffer(input[..n], newIds, current);
      var all := FlatNewIds(input, newIds);
      forall k | 0 <= k < |all| ensures DrawnBefore(newIds, all[k], n + 1) {
        if k < |front| {
          assert DrawnBefore(newIds, front[k], n);
        } else {
          assert all[k] == newIds.field(n, k - |front|);
        }
      }
      forall j, k | 0 <= j < k < |all| ensures all[j] != all[k] {
        if k >= |front| && j < |front| {
          assert DrawnBefore(newIds, front[j], n);
          assert all[k] == newIds.field(n, k - |front|);
        }
      }
    }
  }

  function IdOf(given: FieldInput, newId: Id): Id {
    if given.id.Some? then given.id.value else newId
  }

  lemma FlatMergeOfOne(rules: Rules, prior: map<Id, Value>, section: SectionInput, newIds: NewIds, n: nat, out: Section,
                       f: nat)
    requires SectionMerges(rules, prior, section, newIds, n, out) && f < |section.fields|
    ensures |out.fields| == |section.fields| && out.fields[f].id == IdOf(section.fields[f], newIds.field(n, f))
  {
  }

  lemma {:induction false} FlatMerge(rules: Rules, prior: map<Id, Value>, input: seq<SectionInput>, newIds: NewIds,
                                     out: seq<Section>)
    requires |out| == |input| && forall s :: 0 <= s < |input| ==>
             SectionMerges(rules, prior, input[s], newIds, s, out[s])
    ensures |AllFields(out)| == |AllInputs(input)|
    ensures forall k :: 0 <= k < |AllInputs(input)| ==>
              AllFields(out)[k].id == IdOf(AllInputs(input)[k], FlatNewIds(input, newIds)[k])
  {
    if input != [] {
      var n := |input| - 1;
      FlatMerge(rules, prior, input[..n], newIds, out[..n]);
      assert SectionMerges(rules, prior, input[n], newIds, n, out[n]);
      forall f | 0 <= f < |input[n].fields|
        ensures out[n].fields[f].id == IdOf(input[n].fields[f], newIds.field(n, f))
      {
        FlatMergeOfOne(rules, prior, input[n], newIds, n, out[n], f);
      }
      OneSectionMore(AllFields(out[..n]), out[n].fields, AllInputs(input[..n]), input[n].fields,
                     FlatNewIds(input[..n], newIds), seq(|input[n].fields|, f requires 0 <= f => newIds.field(n, f)));
    }
  }

  lemma OneSectionMore(stored: seq<Field>, more: seq<Field>, given: seq<FieldInput>, moreGiven: seq<FieldInput>,
                       ids: seq<Id>, moreIds: seq<Id>)
    requires |stored| == |given| == |ids| && |more| == |moreGiven| == |moreIds|
    requires forall k :: 0 <= k < |given| ==> stored[k].id == IdOf(given[k], ids[k])
    requires forall k :: 0 <= k < |moreGiven| ==> more[k].id == IdOf(moreGiven[k], moreIds[k])
    ensures forall k :: 0 <= k < |given + moreGiven| ==>
              (stored + more)[k].id == IdOf((given + moreGiven)[k], (ids + moreIds)[k])
  {
  }

  /** After any accepted save no two fields and no two sections share an id,
      whatever the stored ones were. */
  lemma {:induction false} SaveKeepsIdsDistinct(rules: Rules, current: seq<Section>, input: seq<SectionInput>,
                                                newIds: NewIds, out: seq<Section>)
    requires Merges(rules, current, input, newIds, out) && LayoutOk(current, input) && AreNew(newIds, current)
    ensures DistinctIds(out)
  {
    var prior := ById(AllFields(current));
    var (fields, ids) := (AllInputs(input), FlatNewIds(input, newIds));
    FlatMerge(rules, prior, input, newIds, out);
    FlatNewIdsDiffer(input, newIds, current);
    forall i, j | 0 <= i < j < |fields| ensures AllFields(out)[i].id != AllFields(out)[j].id {
      assert FieldIds(fields)[i] == fields[i].id && FieldIds(fields)[j] == fields[j].id;
    }
    forall i, j | 0 <= i < j < |out| ensures out[i].id != out[j].id {
      assert SectionMerges(rules, prior, input[i], newIds, i, out[i]);
      assert SectionMerges(rules, prior, input[j], newIds, j, out[j]);
      assert GivenSectionIds(input)[i] == input[i].id && GivenSectionIds(input)[j] == input[j].id;
    }
  }

  // ---------------------------------------------------------------- a save that changes nothing

  function Unchanged(value: Value): ValueInput {
    match value
    case Plain(k, c) => PlainInput(k, c)
    case Password(_) => PasswordInput(Keep)
    case Otp(_) => OtpInput(Keep)
  }

  function UnchangedFields(fields: seq<Field>): seq<FieldInput> {
    seq(|fields|, k requires 0 <= k < |fields| =>
        FieldInput(Some(fields[k].id), fields[k].labelText, Unchanged(fields[k].value)))
  }

  /** The editor's layout of an item nobody touched: secrets are only kept. */
  function UnchangedLayout(current: seq<Section>): seq<SectionInput> {
    seq(|current|, s requires 0 <= s < |current| =>
      SectionInput(Some(current[s].id), current[s].title, UnchangedFields(current[s].fields)))
  }

  /** Stored texts pass the rules as they are. */
  predicate PassesAsStored(rules: Rules, field: Field) {
    && rules.line(Some(field.labelText)) == Some(Some(field.labelText))
    && (field.value.Plain? ==> rules.plain(field.value.plain, field.value.content) == Some(field.value.content))
    && (field.value.Password? && field.value.password.Some? ==> rules.passwordFits(field.value.password.value))
  }

  predicate AllPassAsStored(rules: Rules, current: seq<Section>) {
    && (forall s :: 0 <= s < |current| ==> rules.line(current[s].title) == Some(current[s].title))
    && (forall k :: 0 <= k < |AllFields(current)| ==> PassesAsStored(rules, AllFields(current)[k]))
  }

  lemma {:induction false} InputsOfUnchanged(current: seq<Section>)
    ensures AllInputs(UnchangedLayout(current)) == UnchangedFields(AllFields(current))
  {
    if current != [] {
      var n := |current| - 1;
      InputsOfUnchanged(current[..n]);
      assert UnchangedLayout(current)[..n] == UnchangedLayout(current[..n]);
    }
  }

  lemma {:induction false} DistinctFieldsById(fields: seq<Field>, k: nat)
    requires k < |fields| && forall i, j :: 0 <= i < j < |fields| ==> fields[i].id != fields[j].id
    ensures fields[k].id in ById(fields) && ById(fields)[fields[k].id] == fields[k].value
  {
    var front := fields[..|fields| - 1];
    if k < |fields| - 1 {
      DistinctFieldsById(front, k);
      assert front[k] == fields[k];
    }
  }

  predicate FoundAsStored(rules: Rules, prior: map<Id, Value>, field: Field) {
    PassesAsStored(rules, field) && field.id in prior && prior[field.id] == field.value
  }

  lemma UnchangedFieldMerges(rules: Rules, prior: map<Id, Value>, field: Field, newId: Id)
    requires FoundAsStored(rules, prior, field)
    ensures var given := FieldInput(Some(field.id), field.labelText, Unchanged(field.value));
            FieldLayoutOk(prior, given) && FieldValueOk(rules, prior, given)
                && MergedField(rules, prior, given, newId) == field
  {
  }

  lemma UnchangedFieldsMerge(rules: Rules, prior: map<Id, Value>, fields: seq<Field>, newIds: NewIds, s: nat)
    requires forall k :: 0 <= k < |fields| ==> FoundAsStored(rules, prior, fields[k])
    ensures FieldsMerge(rules, prior, UnchangedFields(fields), newIds, s, fields)
    ensures forall k :: 0 <= k < |fields| ==>
              FieldLayoutOk(prior, UnchangedFields(fields)[k]) && FieldValueOk(rules, prior, UnchangedFields(fields)[k])
  {
    forall f | 0 <= f < |fields|
      ensures FieldLayoutOk(prior, UnchangedFields(fields)[f]) && FieldValueOk(rules, prior, UnchangedFields(fields)[f])
              && fields[f] == MergedField(rules, prior, UnchangedFields(fields)[f], newIds.field(s, f))
    {
      UnchangedFieldMerges(rules, prior, fields[f], newIds.field(s, f));
    }
  }

  lemma UnchangedLayoutOk(current: seq<Section>)
    requires DistinctIds(current)
    ensures NamedOnce(GivenSectionIds(UnchangedLayout(current)), SectionIds(current))
    ensures NamedOnce(FieldIds(UnchangedFields(AllFields(current))), ById(AllFields(current)).Keys)
  {
    var ids := GivenSectionIds(UnchangedLayout(current));
    forall i | 0 <= i < |ids| ensures ids[i].value in SectionIds(current) {
      assert current[i] in current;
    }
  }

  lemma {:induction false} AllFound(rules: Rules, current: seq<Section>)
    requires DistinctIds(current) && AllPassAsStored(rules, current)
    ensures forall k :: 0 <= k < |AllFields(current)| ==>
            FoundAsStored(rules, ById(AllFields(current)), AllFields(current)[k])
  {
    var fields := AllFields(current);
    forall k | 0 <= k < |fields| ensures FoundAsStored(rules, ById(fields), fields[k]) {
      DistinctFieldsById(fields, k);
    }
  }

  lemma {:induction false} SectionUnchanged(rules: Rules, current: seq<Section>, newIds: NewIds, s: nat)
    requires DistinctIds(current) && AllPassAsStored(rules, current) && s < |current|
    ensures SectionMerges(rules, ById(AllFields(current)), UnchangedLayout(current)[s], newIds, s, current[s])
  {
    var prior := ById(AllFields(current));
    AllFound(rules, current);
    forall f | 0 <= f < |current[s].fields| ensures FoundAsStored(rules, prior, current[s].fields[f]) {
      var k := FlatField(current, s, f);
    }
    UnchangedFieldsMerge(rules, prior, current[s].fields, newIds, s);
  }

  lemma UnchangedMerges(rules: Rules, current: seq<Section>, newIds: NewIds)
    requires DistinctIds(current) && AllPassAsStored(rules, current)
    ensures LayoutOk(current, UnchangedLayout(current)) && ValuesOk(rules, current, UnchangedLayout(current))
    ensures Merges(rules, current, UnchangedLayout(current), newIds, current)
  {
    AllFound(rules, current);
    InputsOfUnchanged(current);
    UnchangedLayoutOk(current);
    UnchangedFieldsMerge(rules, ById(AllFields(current)), AllFields(current), newIds, 0);
    forall s | 0 <= s < |current|
      ensures SectionMerges(rules, ById(AllFields(current)), UnchangedLayout(current)[s], newIds, s, current[s])
    {
      SectionUnchanged(rules, current, newIds, s);
    }
  }

  predicate WithinLimits(rules: Rules, current: seq<Section>) {
    |current| <= MAX_SECTIONS && |AllFields(current)| <= MAX_FIELDS && TotalBytes(rules, current) <= MAX_TOTAL_BYTES
  }

  /** Sending back what the editor was given is accepted and changes nothing, no
      secret is lost though none was sent, exactly when what is stored is within the
      limits of a save. */
  lemma {:induction false} SavingUnchangedChangesNothing(rules: Rules, current: seq<Section>, newIds: NewIds,
                                                         r: Result<seq<Section>, Refusal>)
    requires DistinctIds(current) && AllPassAsStored(rules, current)
    requires Outcome(rules, UnchangedLayout(current), current, newIds, r)
    ensures r.Ok? <==> WithinLimits(rules, current)
    ensures r.Ok? ==> r.value == current
  {
    UnchangedMerges(rules, current, newIds);
    InputsOfUnchanged(current);
    assert |AllInputs(UnchangedLayout(current))| == |AllFields(current)|;
    match r
    case Ok(out) =>
      MergeIsUnique(rules, current, UnchangedLayout(current), newIds, current, out);
    case Err(e) =>
      assert e.TooManySections? || e.TooManyFields? || e.BadLayout? || e.NeedsLabel? || e.BadValue? || e.TooLarge?;
  }

  lemma {:induction false} FlatField(sections: seq<Section>, s: nat, f: nat) returns (k: nat)
    requires s < |sections| && f < |sections[s].fields|
    ensures k < |AllFields(sections)| && AllFields(sections)[k] == sections[s].fields[f]
  {
    var front := sections[..|sections| - 1];
    if s == |sections| - 1 {
      k := |AllFields(front)| + f;
    } else {
      k := FlatField(front, s, f);
    }
  }
}
