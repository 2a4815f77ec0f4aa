/**
 * Form-field helpers of the submission models: the mapping from a form
 * field's raw `Type` string to its input kind, and the defaulted texts of a
 * form-field error.
 */
module FormFields {
  import opened Wrappers

  /** `BVFormInputType` */
  datatype FormInputType = Boolean | File | Integer | Select | Text | TextArea | Unknown

  /** The raw type names the decoder recognises, and the input kind each names. */
  const RawInputTypes: map<string, FormInputType> := map[
    "BooleanInput" := Boolean,
    "FileInput" := File,
    "IntegerInput" := Integer,
    "SelectInput" := Select,
    "TextInput" := Text,
    "TextAreaInput" := TextArea]

  /** `BVFormInputType.init(rawValue:)`: an exact match of a known name, otherwise `unknown`. */
  function InputTypeFromRaw(rawValue: Option<string>): (t: FormInputType)
    ensures t == (if rawValue.Some? && rawValue.value in RawInputTypes then RawInputTypes[rawValue.value] else Unknown)
    ensures t == Boolean <==> rawValue == Some("BooleanInput")
    ensures t == File <==> rawValue == Some("FileInput")
    ensures t == Integer <==> rawValue == Some("IntegerInput")
    ensures t == Select <==> rawValue == Some("SelectInput")
    ensures t == Text <==> rawValue == Some("TextInput")
    ensures t == TextArea <==> rawValue == Some("TextAreaInput")
  {
    match rawValue
    case Some(value) =>
      if "BooleanInput" == value then Boolean
      else if "FileInput" == value then File
      else if "IntegerInput" == value then Integer
      else if "SelectInput" == value then Select
      else if "TextInput" == value then Text
      else if "TextAreaInput" == value then TextArea
      else Unknown
    case None => Unknown
  }

  /** A missing type, or any name other than the six, is `unknown`. */
  lemma UnknownInputType(rawValue: Option<string>)
    ensures InputTypeFromRaw(rawValue) == Unknown <==> rawValue.None? || rawValue.value !in RawInputTypes
  {
  }

  datatype FormFieldOption = FormFieldOption(optionLabel: Option<string>, selected: Option<bool>, value: Option<string>)

  /** `BVFormField`, with its raw `Type` string as `typeName`. */
  datatype FormField = FormField(
    typeName: Option<string>,
    identifier: Option<string>,
    isDefault: Option<bool>,
    fieldLabel: Option<string>,
    maxLength: Option<int>,
    minLength: Option<int>,
    options: Option<seq<FormFieldOption>>,
    required: Option<bool>,
    value: Option<string>)

  /** `formInputType`: the input kind named by the field's raw type. */
  function FormInputTypeOf(f: FormField): (t: FormInputType)
    ensures t == InputTypeFromRaw(f.typeName)
    ensures t != Unknown ==> f.typeName.Some? && f.typeName.value in RawInputTypes
  {
    InputTypeFromRaw(f.typeName)
  }

  /** `BVFormFieldError` */
  datatype FormFieldError = FormFieldError(codeString: Option<string>, messageString: Option<string>, name: Option<string>)

  const UnknownCode := "Unknown Form Field Error Code"
  const UnknownMessage := "Unknown Form Field Error Message"

  /** `code`: the decoded code, or a fixed text when there is none. */
  function Code(e: FormFieldError): (r: string)
    ensures e.codeString.Some? ==> r == e.codeString.value
    ensures e.codeString.None? ==> r == "Unknown Form Field Error Code"
  {
    if e.codeString.Some? then e.codeString.value else UnknownCode
  }

  /** `message`: the decoded message, or a fixed text when there is none. */
  function Message(e: FormFieldError): (r: string)
    ensures e.messageString.Some? ==> r == e.messageString.value
    ensures e.messageString.None? ==> r == "Unknown Form Field Error Message"
  {
    if e.messageString.Some? then e.messageString.value else UnknownMessage
  }

  /** `description`: "Code: ", the code, " Message: ", the message. */
  function Description(e: FormFieldError): (r: string)
    ensures |r| == |"Code: "| + |Code(e)| + |" Message: "| + |Message(e)|
    ensures r[..6 + |Code(e)|] == "Code: " + Code(e)
    ensures r[6 + |Code(e)|..] == " Message: " + Message(e)
  {
    "Code: " + Code(e) + " Message: " + Message(e)
  }

  /** The name a debug description shows: the field's, or "Unknown". */
  function NameOrUnknown(e: FormFieldError): (r: string)
    ensures e.name.Some? ==> r == e.name.value
    ensures e.name.None? ==> r == "Unknown"
  {
    if e.name.Some? then e.name.value else "Unknown"
  }

  /** `debugDescription`: "Name: ", the field name, ", Code: ", the code, ", Message: ", the message. */
  function DebugDescription(e: FormFieldError): (r: string)
    ensures
      var head := "Name: " + NameOrUnknown(e) + ", ";
      && |r| == |head| + |"Code: "| + |Code(e)| + |", Message: "| + |Message(e)|
      && r[..|head|] == head
      && r[|head|..|head| + 6 + |Code(e)|] == "Code: " + Code(e)
      && r[|head| + 6 + |Code(e)|..] == ", Message: " + Message(e)
  {
    var head, code, tail := "Name: " + NameOrUnknown(e) + ", ", "Code: " + Code(e), ", Message: " + Message(e);
    var r := head + code + tail;
    assert r[..|head|] == head;
    assert r[|head|..|head| + |code|] == code;
    assert r[|head| + |code|..] == tail;
    r
  }
}
