/**
 * The searchable select: option filtering by label, the selected
 * options of a single or multiple selection, toggling a value in a
 * multiple selection, the badge of each option, and the keyboard and
 * mouse state machine over `isOpen`, `searchTerm` and `focusedIndex`.
 */
module SearchableSelect {
  import opened Wrappers
  import opened JsStrings
  import opened BadgeColors
  import opened SeqFacts

  /** An option value: `string | number`, compared with `===`. */
  datatype OptionValue = TextValue(s: string) | NumberValue(n: int)

  /** An explicit badge: a hue name and an intensity. */
  datatype Badge = Badge(color: string, intensity: nat)

  datatype SelectOption = SelectOption(value: OptionValue, caption: string, badge: Option<Badge>)

  /** The `value` prop: absent, one value, or an array of values. */
  datatype Selection = NoValue | Single(v: OptionValue) | Many(vs: seq<OptionValue>)

  /** A caption (the option label) matches when it contains the search term, ignoring case. */
  predicate Matches(caption: string, term: string) {
    Contains(ToLower(caption), ToLower(term))
  }

  /** `filteredOptions`: with a search term, the options whose label matches, in option order; else all. */
  function Filtered(options: seq<SelectOption>, searchable: bool, term: string): (r: seq<SelectOption>)
    ensures !(searchable && term != "") ==> r == options
    ensures searchable && term != "" ==>
              IsSubsequence(r, options)
              && (forall o {:trigger multiset(r)[o]} :: multiset(r)[o] == if Matches(o.caption, term) then multiset(options)[o] else 0)
              && (forall o :: o in r <==> o in options && Matches(o.caption, term))
    ensures |r| <= |options|
  {
    if searchable && term != "" then MatchingOptions(options, term) else options
  }

  /**
   * `options.filter(...)` on the label match: the matching options, each
   * as often as it occurs, in their order.
   */
  function MatchingOptions(options: seq<SelectOption>, term: string): (r: seq<SelectOption>)
    ensures IsSubsequence(r, options)
    ensures forall o {:trigger multiset(r)[o]} :: multiset(r)[o] == if Matches(o.caption, term) then multiset(options)[o] else 0
    ensures forall o :: o in r <==> o in options && Matches(o.caption, term)
    ensures |r| <= |options|
  {
    if options == [] then []
    else
      var keep := Matches(options[0].caption, term);
      var rest := MatchingOptions(options[1..], term);
      ConsSubsequence(keep, options, rest);
      MultisetCons(options);
      (if keep then [options[0]] else []) + rest
  }

  /** Does `o` count as selected under `value`? */
  predicate IsSelected(multiple: bool, value: Selection, o: SelectOption) {
    if multiple then value.Many? && o.value in value.vs else value == Single(o.value)
  }

  /** `selectedOptions`: the selected options, each as often as it occurs, in option order. */
  function SelectedOptions(options: seq<SelectOption>, multiple: bool, value: Selection): (r: seq<SelectOption>)
    ensures IsSubsequence(r, options)
    ensures forall o {:trigger multiset(r)[o]} :: multiset(r)[o] == if IsSelected(multiple, value, o) then multiset(options)[o] else 0
    ensures forall o :: o in r <==> o in options && IsSelected(multiple, value, o)
    ensures |r| <= |options|
  {
    if options == [] then []
    else
      var keep := IsSelected(multiple, value, options[0]);
      var rest := SelectedOptions(options[1..], multiple, value);
      ConsSubsequence(keep, options, rest);
      MultisetCons(options);
      (if keep then [options[0]] else []) + rest
  }

  /** `currentValues.filter((v) => v !== optionValue)`. */
  function Without(values: seq<OptionValue>, v: OptionValue): (r: seq<OptionValue>)
    ensures IsSubsequence(r, values)
    ensures forall x {:trigger multiset(r)[x]} :: multiset(r)[x] == if x != v then multiset(values)[x] else 0
    ensures forall x :: x in r <==> x in values && x != v
    ensures |r| <= |values|
  {
    if values == [] then []
    else
      var keep := values[0] != v;
      var rest := Without(values[1..], v);
      ConsSubsequence(keep, values, rest);
      MultisetCons(values);
      (if keep then [values[0]] else []) + rest
  }

  /** The new multiple selection after choosing `v`: removed if present, else appended. */
  function Toggled(values: seq<OptionValue>, v: OptionValue): (r: seq<OptionValue>)
    ensures v in r <==> v !in values
    ensures forall x :: x != v ==> (x in r <==> x in values)
    ensures v !in values ==> r == values + [v]
  {
    if v in values then Without(values, v) else values + [v]
  }

  lemma {:induction false} WithoutAbsent(values: seq<OptionValue>, v: OptionValue)
    requires v !in values
    ensures Without(values, v) == values
  {
    if values != [] {
      WithoutAbsent(values[1..], v);
    }
  }

  lemma {:induction false} WithoutAppended(values: seq<OptionValue>, v: OptionValue)
    requires v !in values
    ensures Without(values + [v], v) == values
  {
    if values == [] {
      assert Without([v], v) == [] + Without([], v);
    } else {
      assert (values + [v])[1..] == values[1..] + [v];
      WithoutAppended(values[1..], v);
    }
  }

  /** Choosing a value not yet selected and then choosing it again restores the selection. */
  lemma ToggleTwice(values: seq<OptionValue>, v: OptionValue)
    requires v !in values
    ensures Toggled(Toggled(values, v), v) == values
  {
    WithoutAppended(values, v);
  }

  /** Choosing a selected value removes every copy of it and keeps the rest in order. */
  lemma ToggleRemoves(values: seq<OptionValue>, v: OptionValue, w: OptionValue)
    requires v in values && w !in values
    ensures Toggled(values, v) == Without(values, v)
    ensures Toggled(Toggled(values, v), w) == Without(values, v) + [w]
  {
  }

  /** The first position of an option with value `v`, or -1. */
  function FindIndex(options: seq<SelectOption>, v: OptionValue): (r: int)
    ensures -1 <= r < |options|
    ensures r >= 0 ==> options[r].value == v && forall i :: 0 <= i < r ==> options[i].value != v
    ensures r == -1 ==> forall i :: 0 <= i < |options| ==> options[i].value != v
  {
    if options == [] then -1
    else if options[0].value == v then 0
    else
      var k := FindIndex(options[1..], v);
      if k == -1 then -1 else k + 1
  }

  /** The badge colours of an option shown at `fallback`: its own badge, or the colour of its position. */
  function OptionBadge(options: seq<SelectOption>, o: SelectOption, fallback: nat): (r: BadgeColorScheme)
  {
    if o.badge.Some? then GetBadgeColorFrom(o.badge.value.color, o.badge.value.intensity)
    else
      var i := FindIndex(options, o.value);
      GetBadgeColor(if i >= 0 then i else fallback)
  }

  /** A badge picked by position is always one of the safelisted class pairs. */
  lemma PositionBadgeSafelisted(options: seq<SelectOption>, o: SelectOption, fallback: nat)
    requires o.badge.None?
    ensures var r := OptionBadge(options, o, fallback);
      r.bg + " " + r.text in BadgeClassSafelist
  {
    var i := FindIndex(options, o.value);
    var index := if i >= 0 then i else fallback;
    SchemeInSafelist(index);
  }

  /** The keys the select reacts to. */
  datatype Key = ArrowDown | ArrowUp | Enter | Escape | Tab | OtherKey

  /** What the select reports to its owner. */
  datatype Event = Changed(selection: Selection) | Blurred

  /** The props a key press or click sees. */
  datatype Props = Props(options: seq<SelectOption>, value: Selection, multiple: bool, searchable: bool, disabled: bool)

  /** `Math.min(prev + 1, filteredOptions.length - 1)`. */
  function FocusDown(prev: int, count: nat): (r: int)
    ensures r <= count - 1 && (r == prev + 1 || r == count - 1)
  {
    if prev + 1 <= count - 1 then prev + 1 else count - 1
  }

  /** `Math.max(prev - 1, 0)`. */
  function FocusUp(prev: int): (r: int)
    ensures r >= 0 && (r == prev - 1 || r == 0)
  {
    if prev - 1 >= 0 then prev - 1 else 0
  }

  /** The outcome of Enter. */
  datatype EnterOutcome = ChooseAt(index: nat) | ToggleOpen | Crash

  /**
   * Enter as written: with the panel open and a focus of 0 or more it
   * reads `filteredOptions[focusedIndex].value`, which throws when the
   * focus is past the end of the list.
   */
  function EnterAsWritten(isOpen: bool, focus: int, count: nat): EnterOutcome {
    if isOpen && focus >= 0 then (if focus < count then ChooseAt(focus) else Crash) else ToggleOpen
  }

  /** Enter with the bound checked: choose only an option that exists, else toggle the panel. */
  function EnterAction(isOpen: bool, focus: int, count: nat): (r: EnterOutcome)
    ensures r.ChooseAt? <==> isOpen && 0 <= focus < count
    ensures r.ChooseAt? ==> r.index == focus
    ensures r != Crash
  {
    if isOpen && 0 <= focus < count then ChooseAt(focus) else ToggleOpen
  }

  /** The checked Enter does what the written one does whenever that one does not throw. */
  lemma EnterAgreesUnlessCrash(isOpen: bool, focus: int, count: nat)
    ensures EnterAsWritten(isOpen, focus, count) != Crash ==> EnterAction(isOpen, focus, count) == EnterAsWritten(isOpen, focus, count)
    ensures EnterAsWritten(isOpen, focus, count) == Crash <==> isOpen && focus >= count
  {
  }

  /**
   * On a select without a search box (`searchable` false) and without
   * options, the keys reach the trigger: ArrowDown opens the panel,
   * ArrowUp moves the focus from -1 to 0, and Enter then reads past the
   * empty list.
   */
  lemma ArrowUpThenEnterOnEmptyCrashes()
    ensures EnterAsWritten(true, FocusUp(-1), 0) == Crash
    ensures EnterAction(true, FocusUp(-1), 0) == ToggleOpen
  {
  }

  /**
   * Nothing resets the focus when the `options` prop shrinks, so a focus
   * valid for three options (ArrowDown three times) throws once one is left.
   */
  lemma ShrunkOptionsThenEnterCrashes()
    ensures EnterAsWritten(true, FocusDown(FocusDown(FocusDown(-1, 3), 3), 3), 1) == Crash
  {
  }

  /** The open/search/focus state of one select, and the events it has sent. */
  class SelectBox {
    var isOpen: bool
    var searchTerm: string
    var focusedIndex: int
    var events: seq<Event>

    constructor ()
      ensures !isOpen && searchTerm == "" && focusedIndex == -1 && events == []
    {
      isOpen := false;
      searchTerm := "";
      focusedIndex := -1;
      events := [];
    }

    /** The options the panel lists now. */
    function Visible(props: Props): (r: seq<SelectOption>)
      reads this
      ensures r == Filtered(props.options, props.searchable, searchTerm)
    {
      Filtered(props.options, props.searchable, searchTerm)
    }

    /**
     * `handleSelect`: a multiple select reports the toggled array and
     * stays open; a single select reports the value, closes, clears the
     * search and reports the blur.
     */
    method Select(props: Props, v: OptionValue)
      modifies this
      ensures props.multiple ==>
                var current := if props.value.Many? then props.value.vs else [];
                events == old(events) + [Changed(Many(Toggled(current, v)))]
                && isOpen == old(isOpen) && searchTerm == old(searchTerm)
      ensures !props.multiple ==>
                events == old(events) + [Changed(Single(v)), Blurred]
                && !isOpen && searchTerm == ""
      ensures focusedIndex == old(focusedIndex)
    {
      if props.multiple {
        var currentValues := if props.value.Many? then props.value.vs else [];
        var newValues := if v in currentValues then Without(currentValues, v) else currentValues + [v];
        events := events + [Changed(Many(newValues))];
      } else {
        events := events + [Changed(Single(v))];
        isOpen := false;
        searchTerm := "";
        events := events + [Blurred];
      }
    }

    /** `handleKeyDown`, with Enter bound-checked; a disabled select ignores keys. */
    method KeyDown(props: Props, key: Key)
      modifies this
      ensures props.disabled ==>
                isOpen == old(isOpen) && searchTerm == old(searchTerm)
                && focusedIndex == old(focusedIndex) && events == old(events)
      ensures !props.disabled && key == ArrowDown ==>
                (old(isOpen) ==> isOpen && focusedIndex == FocusDown(old(focusedIndex), |old(Visible(props))|))
                && (!old(isOpen) ==> isOpen && focusedIndex == old(focusedIndex))
                && events == old(events) && searchTerm == old(searchTerm)
      ensures !props.disabled && key == ArrowUp ==>
                focusedIndex == FocusUp(old(focusedIndex)) && isOpen == old(isOpen)
                && events == old(events) && searchTerm == old(searchTerm)
      ensures !props.disabled && key == Enter ==>
                var visible := old(Visible(props));
                match EnterAction(old(isOpen), old(focusedIndex), |visible|)
                case ChooseAt(i) =>
                  focusedIndex == old(focusedIndex)
                  && (props.multiple ==>
                        var current := if props.value.Many? then props.value.vs else [];
                        events == old(events) + [Changed(Many(Toggled(current, visible[i].value)))] && isOpen)
                  && (!props.multiple ==>
                        events == old(events) + [Changed(Single(visible[i].value)), Blurred] && !isOpen && searchTerm == "")
                case ToggleOpen =>
                  isOpen == !old(isOpen) && focusedIndex == old(focusedIndex)
                  && events == old(events) && searchTerm == old(searchTerm)
                case Crash => false
      ensures !props.disabled && key == Escape ==>
                !isOpen && searchTerm == "" && events == old(events) + [Blurred] && focusedIndex == old(focusedIndex)
      ensures !props.disabled && key == Tab ==>
                !isOpen && searchTerm == old(searchTerm) && events == old(events) && focusedIndex == old(focusedIndex)
      ensures !props.disabled && key == OtherKey ==>
                isOpen == old(isOpen) && searchTerm == old(searchTerm)
                && events == old(events) && focusedIndex == old(focusedIndex)
    {
      if props.disabled {
        return;
      }
      var filteredOptions := Filtered(props.options, props.searchable, searchTerm);
      match key
      case ArrowDown =>
        if !isOpen {
          isOpen := true;
        } else {
          focusedIndex := FocusDown(focusedIndex, |filteredOptions|);
        }
      case ArrowUp =>
        focusedIndex := FocusUp(focusedIndex);
      case Enter =>
        if isOpen && 0 <= focusedIndex < |filteredOptions| {
          Select(props, filteredOptions[focusedIndex].value);
        } else {
          isOpen := !isOpen;
        }
      case Escape =>
        isOpen := false;
        searchTerm := "";
        events := events + [Blurred];
      case Tab =>
        isOpen := false;
      case OtherKey =>
    }

    /** Typing in the search box: the focus is not reset. */
    method TypeSearch(term: string)
      modifies this`searchTerm
      ensures searchTerm == term
    {
      searchTerm := term;
    }

    /** A click on the trigger toggles the panel unless the select is disabled. */
    method ClickTrigger(props: Props)
      modifies this`isOpen
      ensures isOpen == if props.disabled then old(isOpen) else !old(isOpen)
    {
      if !props.disabled {
        isOpen := !isOpen;
      }
    }

    /** A mouse-down outside the trigger and the panel closes, clears the search and blurs. */
    method ClickOutside()
      modifies this
      ensures !isOpen && searchTerm == "" && events == old(events) + [Blurred]
      ensures focusedIndex == old(focusedIndex)
    {
      isOpen := false;
      searchTerm := "";
      events := events + [Blurred];
    }
  }
}
