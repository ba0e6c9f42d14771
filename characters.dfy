/**
 * The type guards for character configurations and the create and update
 * request bodies, over parsed JSON values.
 */
module Characters {
  import opened Wrappers
  import opened Json
  import opened Text

  /** The fields a character configuration must carry as strings. */
  const RequiredFields: set<string> := {"name", "personality", "background", "speaking_style"}

  /** `typeof v === 'string'` for a property that may be `undefined`. */
  predicate IsString(v: Option<Json>) {
    v.Some? && v.value.JString?
  }

  /** `typeof v === 'object' && v !== null`: objects and arrays. */
  predicate IsObject(v: Json) {
    v.JObject? || v.JArray?
  }

  /** `isValidCharacterConfig`, applied to a property that may be `undefined`. */
  predicate IsValidCharacterConfig(config: Option<Json>) {
    && config.Some?
    && IsObject(config.value)
    && !config.value.JArray?
    && IsString(Get(config.value, "name"))
    && IsString(Get(config.value, "personality"))
    && IsString(Get(config.value, "background"))
    && IsString(Get(config.value, "speaking_style"))
  }

  /** `isValidCreateRequest`. */
  predicate IsValidCreateRequest(body: Json) {
    && IsObject(body)
    && IsString(Get(body, "name"))
    && |Trim(Get(body, "name").value.s)| > 0
    && IsValidCharacterConfig(Get(body, "config"))
  }

  /** `isValidUpdateRequest`. */
  predicate IsValidUpdateRequest(body: Json) {
    && IsObject(body)
    && IsValidCharacterConfig(Get(body, "config"))
  }

  /**
   * A configuration is valid exactly when it is a plain object (not `null`,
   * not an array, not a primitive) whose four required fields are strings.
   */
  lemma ConfigValidIff(v: Json)
    ensures IsValidCharacterConfig(Some(v)) <==>
      v.JObject? && forall f :: f in RequiredFields ==> f in v.fields && v.fields[f].JString?
  {
    if v.JObject? && forall f :: f in RequiredFields ==> f in v.fields && v.fields[f].JString? {
      assert "name" in RequiredFields && "personality" in RequiredFields;
      assert "background" in RequiredFields && "speaking_style" in RequiredFields;
    }
  }

  /** A missing configuration is never valid. */
  lemma MissingConfigInvalid(body: Json)
    requires Get(body, "config").None?
    ensures !IsValidCreateRequest(body) && !IsValidUpdateRequest(body)
  {
  }

  /** Adding, changing or removing a field other than the four required ones never changes validity. */
  lemma ExtraFieldsIgnored(fields: map<string, Json>, k: string, x: Json)
    requires k !in RequiredFields
    ensures IsValidCharacterConfig(Some(JObject(fields))) <==> IsValidCharacterConfig(Some(JObject(fields[k := x])))
    ensures IsValidCharacterConfig(Some(JObject(fields))) <==> IsValidCharacterConfig(Some(JObject(fields - {k})))
  {
    ConfigValidIff(JObject(fields));
    ConfigValidIff(JObject(fields[k := x]));
    ConfigValidIff(JObject(fields - {k}));
  }

  /** A create request's name has a visible character. */
  lemma CreateNameNotBlank(body: Json)
    requires IsValidCreateRequest(body)
    ensures body.JObject? && !IsBlank(body.fields["name"].s)
  {
    TrimFacts(body.fields["name"].s);
  }

  /** A create request is valid exactly when its name is a non-blank string and the body is a valid update request. */
  lemma CreateIffUpdateWithName(body: Json)
    ensures IsValidCreateRequest(body) <==>
      IsValidUpdateRequest(body) && IsString(Get(body, "name")) && !IsBlank(Get(body, "name").value.s)
  {
    if IsString(Get(body, "name")) {
      TrimFacts(Get(body, "name").value.s);
    }
  }

  /** Every valid create request is also a valid update request. */
  lemma CreateIsUpdate(body: Json)
    requires IsValidCreateRequest(body)
    ensures IsValidUpdateRequest(body)
  {
    CreateIffUpdateWithName(body);
  }
}
