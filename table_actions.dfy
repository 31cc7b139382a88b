/**
 * The action bar above the table: the create, save and delete buttons
 * with their default rules, a caller's partial configuration spread
 * over the defaults, and the labels that count dirty and selected rows.
 */
module TableActions {
  import opened Wrappers
  import opened JsStrings
  import opened Values
  import opened SeqFacts

  datatype Variant = Primary | Secondary | Danger
  datatype Size = Small | Medium | Large

  /** What a click does: one of the table's own actions or a caller's handler. */
  datatype Handler = OpenCreateModal | UpdateSelected | DeleteSelected | CustomHandler(id: nat)

  /**
   * A `disabled` or `hidden` setting: a literal value, or a function,
   * given here by what it returns when the bar renders.
   */
  datatype Flag = Literal(v: Value) | Computed(result: bool)

  /** A button configuration; `None` is a field that is undefined. */
  datatype Button = Button(
    text: Option<string>,
    title: Option<string>,
    onClick: Option<Handler>,
    disabled: Option<Flag>,
    variant: Option<Variant>,
    size: Option<Size>,
    hidden: Option<Flag>)

  /** A field of a partial configuration: left out, or given (possibly as undefined). */
  datatype Field<T> = Missing | Given(value: Option<T>)

  /** `Partial<TableActionButton>`. */
  datatype ButtonOverride = ButtonOverride(
    text: Field<string>,
    title: Field<string>,
    onClick: Field<Handler>,
    disabled: Field<Flag>,
    variant: Field<Variant>,
    size: Field<Size>,
    hidden: Field<Flag>)

  /** One field of `{ ...defaults, ...override }`: a given field wins, even when it is undefined. */
  function Pick<T>(default: Option<T>, field: Field<T>): (r: Option<T>)
    ensures field.Missing? ==> r == default
    ensures field.Given? ==> r == field.value
  {
    if field.Given? then field.value else default
  }

  /** `{ ...defaults, ...override }`; spreading an undefined override changes nothing. */
  function Merge(defaults: Button, override: Option<ButtonOverride>): (r: Button)
    ensures override.None? ==> r == defaults
  {
    match override
    case None => defaults
    case Some(o) =>
      Button(
        Pick(defaults.text, o.text), Pick(defaults.title, o.title), Pick(defaults.onClick, o.onClick),
        Pick(defaults.disabled, o.disabled), Pick(defaults.variant, o.variant), Pick(defaults.size, o.size),
        Pick(defaults.hidden, o.hidden))
  }

  /** Every field the override gives replaces the default; every other field keeps it. */
  lemma MergeFieldwise(defaults: Button, o: ButtonOverride)
    ensures var r := Merge(defaults, Some(o));
      (o.text.Given? ==> r.text == o.text.value) && (o.text.Missing? ==> r.text == defaults.text)
      && (o.disabled.Given? ==> r.disabled == o.disabled.value) && (o.disabled.Missing? ==> r.disabled == defaults.disabled)
      && (o.hidden.Given? ==> r.hidden == o.hidden.value) && (o.hidden.Missing? ==> r.hidden == defaults.hidden)
      && (o.onClick.Given? ==> r.onClick == o.onClick.value) && (o.onClick.Missing? ==> r.onClick == defaults.onClick)
  {
  }

  /** Spreading an override whose every field is missing is the same as no override. */
  lemma EmptyOverrideKeepsDefaults(defaults: Button)
    ensures Merge(defaults, Some(ButtonOverride(Missing, Missing, Missing, Missing, Missing, Missing, Missing))) == defaults
  {
  }

  /** `isHidden` and `isDisabled`: a function's result, or a literal that is exactly `true`. */
  predicate FlagSet(flag: Option<Flag>) {
    match flag
    case None => false
    case Some(Literal(v)) => v == Bool(true)
    case Some(Computed(b)) => b
  }

  /** A literal counts only when it is the boolean `true`: neither `"true"` nor 1 does. */
  lemma OnlyTrueSetsFlag(v: Value)
    ensures FlagSet(Some(Literal(v))) <==> v == Bool(true)
    ensures !FlagSet(Some(Literal(Str("true")))) && !FlagSet(Some(Literal(Int(1)))) && !FlagSet(None)
  {
  }

  function DefaultCreateButton(hasUnsavedChanges: bool): Button {
    Button(Some("New Item"), Some("Create new item"), Some(OpenCreateModal),
      Some(Computed(hasUnsavedChanges)), Some(Primary), Some(Medium), None)
  }

  function DefaultSaveButton(hasUnsavedChanges: bool): Button {
    Button(Some("Save Changes"), Some("Save changes"), Some(UpdateSelected),
      Some(Computed(!hasUnsavedChanges)), Some(Secondary), Some(Medium), None)
  }

  function DefaultDeleteButton(selectedCount: nat): Button {
    Button(Some("Delete Selected"), Some("Delete selected items"), Some(DeleteSelected),
      Some(Computed(selectedCount == 0)), Some(Danger), Some(Medium), None)
  }

  /** A built-in button is drawn only when its mutation hook exists and it is not hidden. */
  predicate Rendered(hasMutation: bool, button: Button) {
    hasMutation && !FlagSet(button.hidden)
  }

  /**
   * With the default configurations: create is disabled exactly while
   * there are unsaved edits, save exactly while there are none (so one
   * of the two is always enabled), delete exactly while nothing is
   * selected; each is drawn exactly when its mutation exists.
   */
  lemma DefaultRules(hasUnsavedChanges: bool, selectedCount: nat, hasCreate: bool, hasUpdate: bool, hasDelete: bool)
    ensures var create := Merge(DefaultCreateButton(hasUnsavedChanges), None);
      var save := Merge(DefaultSaveButton(hasUnsavedChanges), None);
      var delete := Merge(DefaultDeleteButton(selectedCount), None);
      (FlagSet(create.disabled) <==> hasUnsavedChanges)
      && (FlagSet(save.disabled) <==> !hasUnsavedChanges)
      && (FlagSet(delete.disabled) <==> selectedCount == 0)
      && (!FlagSet(create.disabled) || !FlagSet(save.disabled))
      && (Rendered(hasCreate, create) <==> hasCreate)
      && (Rendered(hasUpdate, save) <==> hasUpdate)
      && (Rendered(hasDelete, delete) <==> hasDelete)
  {
  }

  /** Overriding `disabled` with undefined enables the button whatever the defaults said. */
  lemma UndefinedDisabledEnables(defaults: Button, o: ButtonOverride)
    requires o.disabled == Given(None)
    ensures !FlagSet(Merge(defaults, Some(o)).disabled)
  {
  }

  /** A template literal's view of an optional text: undefined prints as "undefined". */
  function TemplateText(text: Option<string>): string {
    if text.Some? then text.value else "undefined"
  }

  /** The save label: the text with the dirty-row count while there are unsaved edits. */
  function SaveLabel(text: Option<string>, hasUnsavedChanges: bool, dirtyCount: nat): (r: Option<string>)
    ensures !hasUnsavedChanges ==> r == text
    ensures hasUnsavedChanges ==> r.Some? && StartsWith(r.value, TemplateText(text) + " (")
  {
    if hasUnsavedChanges then Some(TemplateText(text) + " (" + NatToString(dirtyCount) + ")") else text
  }

  /** The delete label: the text with the selected count once something is selected. */
  function DeleteLabel(text: Option<string>, selectedCount: nat): (r: Option<string>)
    ensures selectedCount == 0 ==> r == text
    ensures selectedCount > 0 ==> r.Some? && StartsWith(r.value, TemplateText(text) + " (")
  {
    if selectedCount > 0 then Some(TemplateText(text) + " (" + NatToString(selectedCount) + ")") else text
  }

  /** The counted labels tell counts apart: the same label means the same count. */
  lemma CountedLabelsDiffer(text: Option<string>, a: nat, b: nat)
    ensures SaveLabel(text, true, a) == SaveLabel(text, true, b) ==> a == b
    ensures a > 0 && b > 0 && DeleteLabel(text, a) == DeleteLabel(text, b) ==> a == b
  {
    var prefix := TemplateText(text) + " (";
    if SaveLabel(text, true, a) == SaveLabel(text, true, b) || (a > 0 && b > 0 && DeleteLabel(text, a) == DeleteLabel(text, b)) {
      var la, lb := prefix + NatToString(a) + ")", prefix + NatToString(b) + ")";
      assert la == lb;
      assert |NatToString(a)| == |NatToString(b)|;
      assert NatToString(a) == la[|prefix|..|la| - 1];
      assert NatToString(b) == lb[|prefix|..|lb| - 1];
      NatToStringInjective(a, b);
    }
  }

  /** The delete tooltip, whatever the configuration says. */
  function DeleteTitle(selectedCount: nat): (r: string)
    ensures selectedCount == 0 ==> r == "Select items to delete"
    ensures selectedCount > 0 ==> StartsWith(r, "Delete " + NatToString(selectedCount) + " selected item")
  {
    if selectedCount == 0 then "Select items to delete"
    else "Delete " + NatToString(selectedCount) + " selected item" + (if selectedCount != 1 then "s" else "")
  }

  /** One item is singular; more are plural. */
  lemma DeleteTitlePlural(n: nat)
    requires n >= 1
    ensures n == 1 ==> DeleteTitle(n) == "Delete 1 selected item"
    ensures n > 1 ==> DeleteTitle(n) == "Delete " + NatToString(n) + " selected items"
  {
    assert NatToString(1) == "1";
  }

  /** A custom button as drawn: `variant || 'secondary'` and `size || 'md'`. */
  function CustomVariant(button: Button): (r: Variant)
    ensures button.variant.None? ==> r == Secondary
  {
    if button.variant.Some? then button.variant.value else Secondary
  }

  function CustomSize(button: Button): (r: Size)
    ensures button.size.None? ==> r == Medium
  {
    if button.size.Some? then button.size.value else Medium
  }

  /** The custom buttons drawn, in order: the ones not hidden. */
  function VisibleCustom(buttons: seq<Button>): (r: seq<Button>)
    ensures |r| <= |buttons|
    ensures IsSubsequence(r, buttons)
    ensures forall b {:trigger multiset(r)[b]} :: multiset(r)[b] == if !FlagSet(b.hidden) then multiset(buttons)[b] else 0
    ensures forall b :: b in r ==> b in buttons && !FlagSet(b.hidden)
    ensures forall b :: b in buttons && !FlagSet(b.hidden) ==> b in r
  {
    if buttons == [] then []
    else
      var keep := !FlagSet(buttons[0].hidden);
      var rest := VisibleCustom(buttons[1..]);
      ConsSubsequence(keep, buttons, rest);
      MultisetCons(buttons);
      var r := (if keep then [buttons[0]] else []) + rest;
      FilterMembers(r, buttons, (b: Button) => !FlagSet(b.hidden));
      r
  }
}
