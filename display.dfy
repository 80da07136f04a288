/** The derived display strings of the filter panel: the toggle button's
    label, its icon class and the selection summary with its Russian
    pluralisation, each a function of the panel state and the filter list. */
module Display {
  import opened FilterModel

  const OpenFiltersText: string := "Открыть фильтры"
  const ClearSelectionText: string := "Очистить выбор"
  const SelectAllText: string := "Выбрать всё"
  const NoFiltersText: string := "Нет выбранных фильтров"

  // ---------------------------------------------------------------------
  // Button label and icon
  // ---------------------------------------------------------------------

  /** getButtonText: a closed panel offers to open; an open one offers to
      clear when something is selected and to select everything otherwise. */
  function ButtonText(isListOpen: bool, fs: seq<Filter>): string {
    if !isListOpen then OpenFiltersText
    else if AnySelected(fs) then ClearSelectionText
    else SelectAllText
  }

  /** getToggleIconClass: no icon while closed; otherwise empty, partial
      ("minus") or full ("check") by the selected count. */
  function ToggleIconClass(isListOpen: bool, fs: seq<Filter>): string {
    if !isListOpen then ""
    else
      var selectedCount := SelectedCount(fs);
      if selectedCount == 0 then "icon-empty"
      else if selectedCount > 0 && !AllFiltersSelected(fs) then "icon-minus"
      else "icon-check"
  }

  /** The button label read against the selected count. */
  lemma ButtonTextSpec(isListOpen: bool, fs: seq<Filter>)
    ensures !isListOpen ==> ButtonText(isListOpen, fs) == OpenFiltersText
    ensures isListOpen ==> (ButtonText(isListOpen, fs) == ClearSelectionText <==> SelectedCount(fs) > 0)
    ensures isListOpen ==> (ButtonText(isListOpen, fs) == SelectAllText <==> SelectedCount(fs) == 0)
  {
    SelectedCountZeroIff(fs);
  }

  /** The icon read against the flags themselves: empty iff nothing is
      selected, check iff something is and everything is, minus otherwise. */
  lemma ToggleIconClassSpec(isListOpen: bool, fs: seq<Filter>)
    ensures !isListOpen ==> ToggleIconClass(isListOpen, fs) == ""
    ensures isListOpen ==> (ToggleIconClass(isListOpen, fs) == "icon-empty" <==> !AnySelected(fs))
    ensures isListOpen ==>
      (ToggleIconClass(isListOpen, fs) == "icon-minus" <==> AnySelected(fs) && !AllFiltersSelected(fs))
    ensures isListOpen ==>
      (ToggleIconClass(isListOpen, fs) == "icon-check" <==> AnySelected(fs) && AllFiltersSelected(fs))
    ensures isListOpen ==>
      (ToggleIconClass(isListOpen, fs) == "icon-check" <==> 0 < SelectedCount(fs) == TotalItems(fs))
  {
    SelectedCountZeroIff(fs);
    SelectedCountFullIff(fs);
  }

  // ---------------------------------------------------------------------
  // Decimal rendering of a count
  // ---------------------------------------------------------------------

  predicate IsDigit(c: char) {
    '0' <= c <= '9'
  }

  predicate AllDigits(s: string) {
    forall k :: 0 <= k < |s| ==> IsDigit(s[k])
  }

  function DigitChar(d: nat): (c: char)
    requires d < 10
    ensures IsDigit(c)
  {
    ('0' as int + d) as char
  }

  function DigitValue(c: char): nat
    requires IsDigit(c)
  {
    c as int - '0' as int
  }

  /** The decimal form of `n` as a template literal prints it: digits only,
      no leading zero. */
  function NatToString(n: nat): (s: string)
    ensures |s| >= 1 && AllDigits(s)
    ensures s[0] == '0' <==> n == 0
  {
    if n < 10 then [DigitChar(n)]
    else NatToString(n / 10) + [DigitChar(n % 10)]
  }

  /** Reads a string of decimal digits back as a number. */
  function ParseDecimal(s: string): nat
    requires AllDigits(s)
  {
    if |s| == 0 then 0
    else 10 * ParseDecimal(s[..|s| - 1]) + DigitValue(s[|s| - 1])
  }

  /** The rendered count reads back as the count. */
  lemma {:induction false} ParseNatToString(n: nat)
    ensures ParseDecimal(NatToString(n)) == n
  {
    var s := NatToString(n);
    if n >= 10 {
      ParseNatToString(n / 10);
      assert s[..|s| - 1] == NatToString(n / 10);
    }
  }

  // ---------------------------------------------------------------------
  // Summary
  // ---------------------------------------------------------------------

  /** The noun for a count `n`, by the rule the summary applies: zero takes
      the genitive plural, one the singular, two to four the paucal form, and
      five and more the genitive plural again. */
  function Plural(n: nat, one: string, few: string, many: string): (w: string)
    ensures n == 1 ==> w == one
    ensures 2 <= n <= 4 ==> w == few
    ensures n == 0 || n > 4 ==> w == many
  {
    if n == 0 then many
    else if n == 1 then one
    else if n > 4 then many
    else few
  }

  function FilterWord(n: nat): string {
    Plural(n, "воронка", "воронки", "воронок")
  }

  function SubFilterWord(n: nat): string {
    Plural(n, "этап", "этапа", "этапов")
  }

  /** getSelectedSummary: "<filters> <word>, <sub-filters> <word>", where a
      filter counts when it or one of its children is selected, or a fixed
      text when both counts are zero. */
  function SelectedSummary(fs: seq<Filter>): string {
    var selectedFilters := ActiveFilterCount(fs);
    var selectedSubFilters := SubFlagCount(fs);
    if selectedFilters == 0 && selectedSubFilters == 0 then NoFiltersText
    else NatToString(selectedFilters) + " " + FilterWord(selectedFilters) + ", " +
         NatToString(selectedSubFilters) + " " + SubFilterWord(selectedSubFilters)
  }

  /** The summary is the fixed "no filters" text exactly when no flag is set. */
  lemma SummaryEmptyIff(fs: seq<Filter>)
    ensures SelectedSummary(fs) == NoFiltersText <==> !AnySelected(fs)
  {
    ActiveFilterCountFacts(fs);
    var s := SelectedSummary(fs);
    if AnySelected(fs) {
      var head := NatToString(ActiveFilterCount(fs));
      assert s[0] == head[0];
      assert IsDigit(s[0]);
      assert !IsDigit(NoFiltersText[0]);
    }
  }

  /** Otherwise the summary opens with the number of filters taking part,
      at least one and at most the number of filters, followed by a space. */
  lemma SummaryLeadingCount(fs: seq<Filter>)
    requires AnySelected(fs)
    ensures var n := ActiveFilterCount(fs);
      var s := SelectedSummary(fs);
      var k := |NatToString(n)|;
      1 <= n <= |fs| && k < |s| && AllDigits(s[..k]) && ParseDecimal(s[..k]) == n && s[k] == ' '
  {
    ActiveFilterCountFacts(fs);
    var n := ActiveFilterCount(fs);
    var s := SelectedSummary(fs);
    var head := NatToString(n);
    assert s[..|head|] == head;
    ParseNatToString(n);
  }

  /** One selected filter and no selected sub-filter reads "1 воронка, 0 этапов". */
  lemma SummaryOneFilter(fs: seq<Filter>)
    requires ActiveFilterCount(fs) == 1 && SubFlagCount(fs) == 0
    ensures SelectedSummary(fs) == "1 воронка, 0 этапов"
  {
    assert NatToString(1) == "1";
    assert NatToString(0) == "0";
  }
}
