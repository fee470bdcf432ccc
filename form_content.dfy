/** Example contents and message names of the form editor
    (frontend/src/studio/nodes/FormBlock/content.ts). */
module FormContent {
  datatype FormExampleContent = FormExampleContent(name: string, prompt: string)

  const EXAMPLE_CONTENT: seq<FormExampleContent> := [
    FormExampleContent("Имя", "Введите ваше имя."),
    FormExampleContent("Возраст", "Сколько вам лет?"),
    FormExampleContent("Email", "Укажите ваш адрес электронной почты."),
    FormExampleContent("Город", "Укажите ваш текущий город проживания."),
    FormExampleContent("Занятие", "Какая у вас профессия или род деятельности?"),
    FormExampleContent("Оценка", "Поставьте оценку от 1 до 10, где 1 - очень плохо, 10 - отлично."),
    FormExampleContent("Любимый цвет", "Какой у вас любимый цвет?"),
    FormExampleContent("Комментарий", "Есть ли у вас какие-либо дополнительные комментарии или пожелания?"),
    FormExampleContent("Любимое животное", "Какое ваше любимое животное?"),
    FormExampleContent("Любимый фильм", "Назовите ваш любимый фильм."),
    FormExampleContent("Любимая книга", "Какая ваша любимая книга?"),
    FormExampleContent("Любимый вид спорта", "Какой ваш любимый вид спорта?"),
    FormExampleContent("Любимая еда", "Какое ваше любимое блюдо?"),
    FormExampleContent("Любимый цветок", "Какой ваш любимый цветок?"),
    FormExampleContent("Любимый эпизод SW", "Назовите ваш любимый эпизод \"Звездных Войн\"."),
    FormExampleContent("Путешествия", "Какие места вы мечтаете посетить в будущем?"),
    FormExampleContent("Хобби", "У вас есть какие-либо увлечения или хобби? Опишите их."),
    FormExampleContent("Суперспособность", "Если бы у вас была суперспособность, какую бы вы выбрали?")
  ]

  /** `getRandomContent` for the value `random` that `Math.random()` returned, which lies
      in [0, 1): the entry at `floor(random * length)`, always a valid index. */
  function GetRandomContent(random: real): (r: FormExampleContent)
    requires 0.0 <= random < 1.0
    ensures r in EXAMPLE_CONTENT
    ensures r == EXAMPLE_CONTENT[(random * |EXAMPLE_CONTENT| as real).Floor]
  {
    var idx := (random * |EXAMPLE_CONTENT| as real).Floor;
    assert 0 <= idx < |EXAMPLE_CONTENT|;
    EXAMPLE_CONTENT[idx]
  }

  const FORM_MESSAGE_KEYS: seq<string> := [
    "form_start", "field_is_skippable", "field_is_not_skippable", "please_enter_correct_value", "unsupported_command"
  ]

  /** `formMessageName`: the label shown for a form message key; a key without a label
      is shown as itself. */
  function FormMessageName(key: string): (r: string)
    ensures key !in FORM_MESSAGE_KEYS ==> r == key
    ensures key != "" ==> r != ""
  {
    if key == "form_start" then "В начале заполнения формы"
    else if key == "field_is_skippable" then "Когда поле можно пропустить"
    else if key == "field_is_not_skippable" then "Когда поле нельзя пропустить"
    else if key == "please_enter_correct_value" then "При некорректном значении"
    else if key == "unsupported_command" then "При неподдерживаемой команде"
    else key
  }

  /** The length and first letter of the label of each labelled key, in key order. */
  const LABEL_SIGNATURES: seq<(int, char)> := [(25, 'В'), (27, 'К'), (28, 'К'), (25, 'П'), (28, 'П')]

  lemma LabelSignature(i: int)
    requires 0 <= i < |FORM_MESSAGE_KEYS|
    ensures |FormMessageName(FORM_MESSAGE_KEYS[i])| > 0
    ensures (|FormMessageName(FORM_MESSAGE_KEYS[i])|, FormMessageName(FORM_MESSAGE_KEYS[i])[0]) == LABEL_SIGNATURES[i]
  {
    if i == 0 {
      assert FormMessageName("form_start") == "В начале заполнения формы";
    } else if i == 1 {
      assert FormMessageName("field_is_skippable") == "Когда поле можно пропустить";
    } else if i == 2 {
      assert FormMessageName("field_is_not_skippable") == "Когда поле нельзя пропустить";
    } else if i == 3 {
      assert FormMessageName("please_enter_correct_value") == "При некорректном значении";
    } else {
      assert FormMessageName("unsupported_command") == "При неподдерживаемой команде";
    }
  }

  /** The five labelled keys get pairwise distinct labels, none of which is a key; the
      cancel-command message has no label of its own. */
  lemma FormMessageNamesDistinct()
    ensures forall i, j :: 0 <= i < j < |FORM_MESSAGE_KEYS| ==> FormMessageName(FORM_MESSAGE_KEYS[i]) != FormMessageName(FORM_MESSAGE_KEYS[j])
    ensures forall i :: 0 <= i < |FORM_MESSAGE_KEYS| ==> FormMessageName(FORM_MESSAGE_KEYS[i]) !in FORM_MESSAGE_KEYS
    ensures FormMessageName("cancel_command_is") == "cancel_command_is"
  {
    forall i, j | 0 <= i < j < |FORM_MESSAGE_KEYS|
      ensures FormMessageName(FORM_MESSAGE_KEYS[i]) != FormMessageName(FORM_MESSAGE_KEYS[j])
    {
      LabelsDiffer(i, j);
    }
    forall i | 0 <= i < |FORM_MESSAGE_KEYS| ensures FormMessageName(FORM_MESSAGE_KEYS[i]) !in FORM_MESSAGE_KEYS {
      LabelNotKey(i);
    }
  }

  /** Two labels of the same length differ in their first letter. */
  lemma LabelsDiffer(i: int, j: int)
    requires 0 <= i < j < |FORM_MESSAGE_KEYS|
    ensures FormMessageName(FORM_MESSAGE_KEYS[i]) != FormMessageName(FORM_MESSAGE_KEYS[j])
  {
    var a := FormMessageName(FORM_MESSAGE_KEYS[i]);
    var b := FormMessageName(FORM_MESSAGE_KEYS[j]);
    LabelSignature(i);
    LabelSignature(j);
    SignaturesDistinct(i, j);
  }

  lemma SignaturesDistinct(i: int, j: int)
    requires 0 <= i < j < |LABEL_SIGNATURES|
    ensures LABEL_SIGNATURES[i] != LABEL_SIGNATURES[j]
  {
    if (i, j) == (0, 3) || (i, j) == (2, 4) {
      assert LABEL_SIGNATURES[i].1 != LABEL_SIGNATURES[j].1;
    } else {
      assert LABEL_SIGNATURES[i].0 != LABEL_SIGNATURES[j].0;
    }
  }

  /** Every key starts with a Latin letter and every label with a Cyrillic one. */
  lemma LabelNotKey(i: int)
    requires 0 <= i < |FORM_MESSAGE_KEYS|
    ensures FormMessageName(FORM_MESSAGE_KEYS[i]) !in FORM_MESSAGE_KEYS
  {
    var n := FormMessageName(FORM_MESSAGE_KEYS[i]);
    LabelSignature(i);
    assert n[0] > 'z';
    forall k | 0 <= k < |FORM_MESSAGE_KEYS| ensures FORM_MESSAGE_KEYS[k] != n {
      assert FORM_MESSAGE_KEYS[k][0] <= 'z';
    }
  }
}
