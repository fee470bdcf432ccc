/** Helpers over form field configurations (frontend/src/studio/nodes/FormBlock/utils.ts).
    The random UUID of a new field is a parameter. */
module FormFieldUtils {
  import opened Base
  import opened Localization
  import opened FlowTypes

  const BASE_CONFIG_ERROR: string := "Unexpected config variant, getBaseFormFieldConfig is probably outdated"

  /** `getBaseFormFieldConfig`: the common part of the variant set, plain text first. */
  function GetBaseFormFieldConfig(config: FormFieldConfig): (r: Throws<BaseFormFieldConfig>)
    ensures r.Raises? <==> config.plainText.None? && config.singleSelect.None?
    ensures r.Raises? ==> r.message == BASE_CONFIG_ERROR
    ensures config.plainText.Some? ==> r == Returns(config.plainText.value.base)
    ensures config.plainText.None? && config.singleSelect.Some? ==> r == Returns(config.singleSelect.value.base)
  {
    if config.plainText.Some? then Returns(config.plainText.value.base)
    else if config.singleSelect.Some? then Returns(config.singleSelect.value.base)
    else Raises(BASE_CONFIG_ERROR)
  }

  /** `getFormFieldId`: the id of the base config, throwing when it does. */
  function GetFormFieldId(config: FormFieldConfig): (r: Throws<string>)
    ensures r.Returns? <==> GetBaseFormFieldConfig(config).Returns?
    ensures r.Returns? ==> r.value == GetBaseFormFieldConfig(config).value.id
    ensures r.Raises? ==> r.message == BASE_CONFIG_ERROR
  {
    match GetBaseFormFieldConfig(config)
    case Returns(base) => Returns(base.id)
    case Raises(message) => Raises(message)
  }

  /** `getDefaultBaseFormFieldConfig`: a required field with automatic formatting and
      an id made from the UUID. */
  function GetDefaultBaseFormFieldConfig(uuid: string): (r: BaseFormFieldConfig)
    ensures |r.id| == |uuid| + 11 && r.id[..11] == "form_field_" && r.id[11..] == uuid
    ensures r.name == "" && r.prompt == Plain("")
    ensures r.isRequired && r.resultFormatting == AutoFormatting
  {
    BaseFormFieldConfig("form_field_" + uuid, "", Plain(""), true, AutoFormatting)
  }

  /** `getDefaultFormFieldConfig`: the variant named by `key` built over the base config;
      any other key throws. */
  function GetDefaultFormFieldConfig(baseConfig: BaseFormFieldConfig, key: string): (r: Throws<FormFieldConfig>)
    ensures r.Raises? <==> key != "plain_text" && key != "single_select"
    ensures r.Raises? ==> r.message == "getDefaultFormFieldConfig can't create config with key " + key
    ensures key == "plain_text" ==> r == Returns(FormFieldConfig(Some(PlainTextFormField(baseConfig, false, Plain(""))), None))
    ensures key == "single_select" ==> r == Returns(FormFieldConfig(None, Some(SingleSelectFormField(baseConfig, [], Plain("")))))
  {
    if key == "plain_text" then Returns(FormFieldConfig(Some(PlainTextFormField(baseConfig, false, Plain(""))), None))
    else if key == "single_select" then Returns(FormFieldConfig(None, Some(SingleSelectFormField(baseConfig, [], Plain("")))))
    else Raises("getDefaultFormFieldConfig can't create config with key " + key)
  }

  /** A default field of either kind gives back the base config it was built from, and
      so its id. */
  lemma DefaultFieldRoundTrip(baseConfig: BaseFormFieldConfig, key: string)
    requires key == "plain_text" || key == "single_select"
    ensures GetBaseFormFieldConfig(GetDefaultFormFieldConfig(baseConfig, key).value) == Returns(baseConfig)
    ensures GetFormFieldId(GetDefaultFormFieldConfig(baseConfig, key).value) == Returns(baseConfig.id)
  {
  }
}
