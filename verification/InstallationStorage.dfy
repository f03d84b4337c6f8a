/** What the installation client keeps in browser storage, and what it accepts back.

    JSON text itself is not modelled: a stored text is absent, not JSON, or a JSON value. A record
    field that is undefined is dropped by serialization, so optional fields are Options.
  */
module InstallationStorage {
  import opened Basics

  /** Names of the object fields the two sides agree on. */
  datatype Field =
    | FKind | FId | FInput
    | FTemplateId | FWorkspaceId | FIdempotencyKey | FBasic | FPublish | FLocale | FCapabilities
    | FTitle | FPrompt | FDescription | FDataScope | FCopilotModel | FRealtimeVoice
    | FCopilotId | FModel | FModelType | FModelId | FVoice
    | FOther(name: string)

  datatype Json = JNull | JBool(b: bool) | JNum(n: int) | JStr(s: string) | JArr(items: seq<Json>) | JObj(fields: map<Field, Json>)

  datatype CopilotModel = CopilotModel(copilotId: Option<string>, model: Option<string>, modelType: Option<string>)
  datatype Voice = Voice(modelId: string, voice: string)
  datatype DataScope = Shared | User
  datatype Basic = Basic(title: Option<string>, prompt: Option<string>, description: Option<string>,
                         dataScope: Option<DataScope>, voice: Option<Voice>, copilot: Option<CopilotModel>)

  /** An installation request with its idempotency key. */
  datatype Intent = Intent(key: string, templateId: string, workspaceId: string, basic: Basic,
                           publish: Option<bool>, locale: Option<string>, capabilities: Option<seq<string>>)

  datatype Saved = SavedOperation(id: string) | SavedIntent(input: Intent)

  // ---------------------------------------------------------------------------------------------
  // Writing
  // ---------------------------------------------------------------------------------------------

  function Put(m: map<Field, Json>, f: Field, v: Option<Json>): map<Field, Json> {
    if v.Some? then m[f := v.value] else m
  }

  function Text(s: Option<string>): Option<Json> {
    if s.Some? then Some(JStr(s.value)) else None
  }

  function Texts(s: seq<string>): seq<Json> {
    seq(|s|, i requires 0 <= i < |s| => JStr(s[i]))
  }

  function EncodeCopilot(m: CopilotModel): Json {
    JObj(Put(Put(Put(map[], FCopilotId, Text(m.copilotId)), FModel, Text(m.model)), FModelType, Text(m.modelType)))
  }

  function ScopeText(scope: DataScope): Json {
    JStr(if scope.Shared? then "shared" else "user")
  }

  function EncodeBasic(b: Basic): Json {
    var m := Put(Put(Put(map[], FTitle, Text(b.title)), FPrompt, Text(b.prompt)), FDescription, Text(b.description));
    var m := Put(m, FDataScope, if b.dataScope.None? then None else Some(ScopeText(b.dataScope.value)));
    var m := Put(m, FRealtimeVoice, if b.voice.None? then None else Some(JObj(map[FModelId := JStr(b.voice.value.modelId), FVoice := JStr(b.voice.value.voice)])));
    JObj(Put(m, FCopilotModel, if b.copilot.None? then None else Some(EncodeCopilot(b.copilot.value))))
  }

  function EncodeIntent(i: Intent): Json {
    var m := map[FIdempotencyKey := JStr(i.key), FTemplateId := JStr(i.templateId),
                 FWorkspaceId := JStr(i.workspaceId), FBasic := EncodeBasic(i.basic)];
    var m := Put(m, FPublish, if i.publish.None? then None else Some(JBool(i.publish.value)));
    var m := Put(m, FLocale, Text(i.locale));
    JObj(Put(m, FCapabilities, if i.capabilities.None? then None else Some(JArr(Texts(i.capabilities.value)))))
  }

  /** The value persist hands to JSON.stringify. */
  function Encode(s: Saved): Json {
    match s
    case SavedOperation(id) => JObj(map[FKind := JStr("operation"), FId := JStr(id)])
    case SavedIntent(input) => JObj(map[FKind := JStr("intent"), FInput := EncodeIntent(input)])
  }

  // ---------------------------------------------------------------------------------------------
  // Reading
  // ---------------------------------------------------------------------------------------------

  function Get(j: Json, f: Field): Option<Json>
    requires j.JObj?
  {
    if f in j.fields then Some(j.fields[f]) else None
  }

  predicate IsText(v: Option<Json>) {
    v.Some? && v.value.JStr?
  }

  predicate IsOptionalText(v: Option<Json>) {
    v.None? || v.value.JStr?
  }

  function TextOf(v: Option<Json>): Option<string>
    requires IsOptionalText(v)
  {
    if v.None? then None else Some(v.value.s)
  }

  predicate CopilotOk(j: Json) {
    && j.JObj?
    && IsText(Get(j, FCopilotId))
    && IsText(Get(j, FModel))
    && (Get(j, FModelType).None? || Get(j, FModelType).value == JStr("llm"))
  }

  predicate VoiceOk(j: Json) {
    j.JObj? && IsText(Get(j, FModelId)) && IsText(Get(j, FVoice))
  }

  /** ['shared', 'user'].includes(String(v)): an array of one value has the text of that value. */
  function ScopeOf(v: Json): Option<DataScope> {
    if v == JStr("shared") then Some(Shared)
    else if v == JStr("user") then Some(User)
    else if v.JArr? && |v.items| == 1 then ScopeOf(v.items[0])
    else None
  }

  predicate DataScopeOk(v: Option<Json>) {
    v.None? || ScopeOf(v.value).Some?
  }

  predicate BasicOk(j: Json) {
    && j.JObj?
    && IsOptionalText(Get(j, FTitle)) && IsOptionalText(Get(j, FDescription)) && IsOptionalText(Get(j, FPrompt))
    && DataScopeOk(Get(j, FDataScope))
    && (Get(j, FCopilotModel).None? || CopilotOk(Get(j, FCopilotModel).value))
    && (Get(j, FRealtimeVoice).None? || VoiceOk(Get(j, FRealtimeVoice).value))
  }

  predicate CapabilitiesOk(v: Option<Json>) {
    v.None? || (v.value.JArr? && forall k <- v.value.items :: k.JStr?)
  }

  predicate IntentOk(j: Json) {
    && j.JObj?
    && IsText(Get(j, FTemplateId)) && IsText(Get(j, FWorkspaceId)) && IsText(Get(j, FIdempotencyKey))
    && Get(j, FBasic).Some? && BasicOk(Get(j, FBasic).value)
    && CapabilitiesOk(Get(j, FCapabilities))
    && (Get(j, FPublish).None? || Get(j, FPublish).value.JBool?)
    && IsOptionalText(Get(j, FLocale))
  }

  function DecodeCopilot(j: Json): CopilotModel
    requires CopilotOk(j)
  {
    CopilotModel(TextOf(Get(j, FCopilotId)), TextOf(Get(j, FModel)), TextOf(Get(j, FModelType)))
  }

  function DecodeBasic(j: Json): Basic
    requires BasicOk(j)
  {
    var scope := Get(j, FDataScope);
    var voice := Get(j, FRealtimeVoice);
    var copilot := Get(j, FCopilotModel);
    Basic(TextOf(Get(j, FTitle)), TextOf(Get(j, FPrompt)), TextOf(Get(j, FDescription)),
          if scope.None? then None else ScopeOf(scope.value),
          if voice.None? then None else Some(Voice(voice.value.fields[FModelId].s, voice.value.fields[FVoice].s)),
          if copilot.None? then None else Some(DecodeCopilot(copilot.value)))
  }

  function DecodeIntent(j: Json): Intent
    requires IntentOk(j)
  {
    var capabilities := Get(j, FCapabilities);
    Intent(j.fields[FIdempotencyKey].s, j.fields[FTemplateId].s, j.fields[FWorkspaceId].s, DecodeBasic(j.fields[FBasic]),
           if Get(j, FPublish).None? then None else Some(Get(j, FPublish).value.b),
           TextOf(Get(j, FLocale)),
           if capabilities.None? then None
           else Some(seq(|capabilities.value.items|, i requires 0 <= i < |capabilities.value.items| =>
                           assert capabilities.value.items[i] in capabilities.value.items; capabilities.value.items[i].s)))
  }

  /** readSaved, after JSON.parse: what a stored value is taken for, if anything. */
  function ReadSaved(j: Json): Option<Saved> {
    if !j.JObj? || Get(j, FKind).None? then None
    else if Get(j, FKind).value == JStr("operation") && IsText(Get(j, FId)) then Some(SavedOperation(Get(j, FId).value.s))
    else if Get(j, FKind).value != JStr("intent") || Get(j, FInput).None? then None
    else if IntentOk(Get(j, FInput).value) then Some(SavedIntent(DecodeIntent(Get(j, FInput).value)))
    else None
  }

  // ---------------------------------------------------------------------------------------------
  // Round trip
  // ---------------------------------------------------------------------------------------------

  /** The model choice readSaved accepts: both names present, and no model type but "llm". */
  predicate ReadableCopilot(m: CopilotModel) {
    m.copilotId.Some? && m.model.Some? && m.modelType in {None, Some("llm")}
  }

  predicate Readable(s: Saved) {
    s.SavedIntent? && s.input.basic.copilot.Some? ==> ReadableCopilot(s.input.basic.copilot.value)
  }

  lemma CopilotRoundTrip(m: CopilotModel)
    ensures CopilotOk(EncodeCopilot(m)) <==> ReadableCopilot(m)
    ensures ReadableCopilot(m) ==> DecodeCopilot(EncodeCopilot(m)) == m
  {
  }

  lemma BasicFields(b: Basic)
    ensures var j := EncodeBasic(b);
            && Get(j, FTitle) == Text(b.title) && Get(j, FPrompt) == Text(b.prompt)
            && Get(j, FDescription) == Text(b.description)
            && Get(j, FDataScope) == (if b.dataScope.None? then None else Some(ScopeText(b.dataScope.value)))
            && Get(j, FCopilotModel) == (if b.copilot.None? then None else Some(EncodeCopilot(b.copilot.value)))
            && Get(j, FRealtimeVoice)
               == (if b.voice.None? then None
                   else Some(JObj(map[FModelId := JStr(b.voice.value.modelId), FVoice := JStr(b.voice.value.voice)])))
  {
  }

  lemma BasicRoundTrip(b: Basic)
    ensures BasicOk(EncodeBasic(b)) <==> (b.copilot.None? || ReadableCopilot(b.copilot.value))
    ensures BasicOk(EncodeBasic(b)) ==> DecodeBasic(EncodeBasic(b)) == b
  {
    BasicFields(b);
    if b.copilot.Some? {
      CopilotRoundTrip(b.copilot.value);
    }
    assert "shared" != "user";
  }

  lemma TextsRoundTrip(s: seq<string>)
    ensures CapabilitiesOk(Some(JArr(Texts(s))))
    ensures seq(|s|, i requires 0 <= i < |s| => Texts(s)[i].s) == s
  {
  }

  lemma IntentFields(i: Intent)
    ensures var j := EncodeIntent(i);
            && Get(j, FIdempotencyKey) == Some(JStr(i.key))
            && Get(j, FTemplateId) == Some(JStr(i.templateId))
            && Get(j, FWorkspaceId) == Some(JStr(i.workspaceId))
            && Get(j, FBasic) == Some(EncodeBasic(i.basic))
            && Get(j, FPublish) == (if i.publish.None? then None else Some(JBool(i.publish.value)))
            && Get(j, FLocale) == Text(i.locale)
            && Get(j, FCapabilities) == (if i.capabilities.None? then None else Some(JArr(Texts(i.capabilities.value))))
  {
  }

  lemma IntentRoundTrip(i: Intent)
    ensures IntentOk(EncodeIntent(i)) <==> Readable(SavedIntent(i))
    ensures Readable(SavedIntent(i)) ==> DecodeIntent(EncodeIntent(i)) == i
  {
    IntentFields(i);
    BasicRoundTrip(i.basic);
    if i.capabilities.Some? {
      TextsRoundTrip(i.capabilities.value);
    }
    if Readable(SavedIntent(i)) && i.capabilities.Some? {
      assert DecodeIntent(EncodeIntent(i)).capabilities.value == i.capabilities.value;
    }
  }

  /** Every record persist writes is read back exactly, or not at all; which of the two is decided by
      its model choice alone. A started intent with another model type is lost when the page reloads. */
  lemma ReadSavedInvertsPersist(s: Saved)
    ensures ReadSaved(Encode(s)) == ReadBack(s)
  {
    assert "operation"[0] != "intent"[0];
    if s.SavedIntent? {
      IntentRoundTrip(s.input);
    }
  }

  // ---------------------------------------------------------------------------------------------
  // What is accepted
  // ---------------------------------------------------------------------------------------------

  /** A value in so many brackets. */
  function Wrapped(v: Json, depth: nat): Json {
    if depth == 0 then v else JArr([Wrapped(v, depth - 1)])
  }

  ghost predicate NamesScope(v: Json, scope: DataScope) {
    exists depth: nat :: v == Wrapped(ScopeText(scope), depth)
  }

  lemma {:induction false} ScopeOfWrapped(scope: DataScope, depth: nat)
    ensures ScopeOf(Wrapped(ScopeText(scope), depth)) == Some(scope)
  {
    assert "shared"[0] != "user"[0];
    if depth > 0 {
      ScopeOfWrapped(scope, depth - 1);
    }
  }

  lemma {:induction false} ScopeIsNamed(v: Json)
    ensures ScopeOf(v).Some? ==> NamesScope(v, ScopeOf(v).value)
    decreases v
  {
    assert "shared"[0] != "user"[0];
    if ScopeOf(v).Some? {
      var text := ScopeText(ScopeOf(v).value);
      if v.JArr? {
        ScopeIsNamed(v.items[0]);
        var depth: nat :| v.items[0] == Wrapped(text, depth);
        assert v.items == [Wrapped(text, depth)];
        assert v == Wrapped(text, depth + 1);
      } else {
        assert v == Wrapped(text, 0);
      }
    }
  }

  lemma ScopeIsExact(v: Json, scope: DataScope)
    ensures ScopeOf(v) == Some(scope) <==> NamesScope(v, scope)
  {
    ScopeIsNamed(v);
    if NamesScope(v, scope) {
      var depth: nat :| v == Wrapped(ScopeText(scope), depth);
      ScopeOfWrapped(scope, depth);
    }
  }

  /** The object says this, in the fields the two sides agree on; it may have others. */
  ghost predicate SaysCopilot(j: Json, m: CopilotModel) {
    && j.JObj?
    && m.copilotId.Some? && Get(j, FCopilotId) == Some(JStr(m.copilotId.value))
    && m.model.Some? && Get(j, FModel) == Some(JStr(m.model.value))
    && Get(j, FModelType) == Text(m.modelType)
    && (m.modelType == None || m.modelType == Some("llm"))
  }

  ghost predicate SaysVoice(j: Json, v: Voice) {
    j.JObj? && Get(j, FModelId) == Some(JStr(v.modelId)) && Get(j, FVoice) == Some(JStr(v.voice))
  }

  ghost predicate SaysBasic(j: Json, b: Basic) {
    && j.JObj?
    && Get(j, FTitle) == Text(b.title) && Get(j, FPrompt) == Text(b.prompt) && Get(j, FDescription) == Text(b.description)
    && (FDataScope in j.fields <==> b.dataScope.Some?)
    && (b.dataScope.Some? ==> NamesScope(j.fields[FDataScope], b.dataScope.value))
    && (FRealtimeVoice in j.fields <==> b.voice.Some?)
    && (b.voice.Some? ==> SaysVoice(j.fields[FRealtimeVoice], b.voice.value))
    && (FCopilotModel in j.fields <==> b.copilot.Some?)
    && (b.copilot.Some? ==> SaysCopilot(j.fields[FCopilotModel], b.copilot.value))
  }

  ghost predicate SaysTexts(j: Json, texts: seq<string>) {
    j.JArr? && |j.items| == |texts| && forall i | 0 <= i < |texts| :: j.items[i] == JStr(texts[i])
  }

  ghost predicate SaysIntent(j: Json, i: Intent) {
    && j.JObj?
    && Get(j, FIdempotencyKey) == Some(JStr(i.key))
    && Get(j, FTemplateId) == Some(JStr(i.templateId))
    && Get(j, FWorkspaceId) == Some(JStr(i.workspaceId))
    && FBasic in j.fields && SaysBasic(j.fields[FBasic], i.basic)
    && Get(j, FPublish) == (if i.publish.None? then None else Some(JBool(i.publish.value)))
    && Get(j, FLocale) == Text(i.locale)
    && (FCapabilities in j.fields <==> i.capabilities.Some?)
    && (i.capabilities.Some? ==> SaysTexts(j.fields[FCapabilities], i.capabilities.value))
  }

  ghost predicate SaysSaved(j: Json, s: Saved) {
    && j.JObj?
    && match s
       case SavedOperation(id) => Get(j, FKind) == Some(JStr("operation")) && Get(j, FId) == Some(JStr(id))
       case SavedIntent(input) => Get(j, FKind) == Some(JStr("intent")) && FInput in j.fields && SaysIntent(j.fields[FInput], input)
  }

  lemma CopilotIsRead(j: Json, m: CopilotModel)
    ensures CopilotOk(j) && DecodeCopilot(j) == m <==> SaysCopilot(j, m)
  {
  }

  lemma BasicIsRead(j: Json, b: Basic)
    ensures BasicOk(j) && DecodeBasic(j) == b <==> SaysBasic(j, b)
  {
    if j.JObj? && FCopilotModel in j.fields && b.copilot.Some? {
      CopilotIsRead(j.fields[FCopilotModel], b.copilot.value);
    }
    if j.JObj? && FDataScope in j.fields && b.dataScope.Some? {
      ScopeIsExact(j.fields[FDataScope], b.dataScope.value);
    }
  }

  lemma TextsAreRead(j: Json, texts: seq<string>)
    requires j.JArr? && forall k <- j.items :: k.JStr?
    ensures seq(|j.items|, i requires 0 <= i < |j.items| => assert j.items[i] in j.items; j.items[i].s) == texts <==> SaysTexts(j, texts)
  {
    assert forall i | 0 <= i < |j.items| :: j.items[i] in j.items;
    var read := seq(|j.items|, i requires 0 <= i < |j.items| => assert j.items[i] in j.items; j.items[i].s);
    if SaysTexts(j, texts) {
      assert read == texts;
    }
  }

  lemma IntentIsRead(j: Json, i: Intent)
    ensures IntentOk(j) && DecodeIntent(j) == i <==> SaysIntent(j, i)
  {
    if j.JObj? && FBasic in j.fields {
      BasicIsRead(j.fields[FBasic], i.basic);
    }
    if j.JObj? && i.capabilities.Some? && CapabilitiesOk(Get(j, FCapabilities)) && FCapabilities in j.fields {
      TextsAreRead(j.fields[FCapabilities], i.capabilities.value);
    }
    if SaysIntent(j, i) && i.capabilities.Some? {
      SaidTextsAreOk(j.fields[FCapabilities], i.capabilities.value);
    }
  }

  lemma SaidTextsAreOk(j: Json, texts: seq<string>)
    requires SaysTexts(j, texts)
    ensures CapabilitiesOk(Some(j))
  {
    forall k <- j.items
      ensures k.JStr?
    {
      var i :| 0 <= i < |j.items| && j.items[i] == k;
    }
  }

  /** readSaved takes a value for a record exactly when the value says that record, field by field. */
  lemma ReadSavedIsExact(j: Json, s: Saved)
    ensures ReadSaved(j) == Some(s) <==> SaysSaved(j, s)
  {
    assert "operation"[0] != "intent"[0];
    if s.SavedIntent? && j.JObj? && FInput in j.fields {
      IntentIsRead(j.fields[FInput], s.input);
    }
  }

  /** Nothing else is ever sent: what readSaved accepts is a value some persist would have written,
      up to fields it does not know. */
  lemma AcceptedIsReadable(j: Json)
    ensures ReadSaved(j).Some? ==> Readable(ReadSaved(j).value) && ReadSaved(Encode(ReadSaved(j).value)) == ReadSaved(j)
  {
    if ReadSaved(j).Some? {
      ReadSavedInvertsPersist(ReadSaved(j).value);
    }
  }

  /** What reading back a written record yields. */
  function ReadBack(s: Saved): Option<Saved> {
    if Readable(s) then Some(s) else None
  }
}
