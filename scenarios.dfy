/** Concrete scenarios over the default catalogue, proved as lemmas: the
    behaviour of the "sales" filter and its stages, and the summary for one bare filter. */
module Scenarios {
  import opened FilterModel
  import opened Display

  /** Toggling "sales" once selects it and its four stages; toggling it again
      clears all five and gives back the catalogue as it was. */
  lemma SalesToggledTwice()
    ensures var c := DefaultCatalogue();
      var once := c[0 := ToggledFilter(c[0])];
      var twice := once[0 := ToggledFilter(once[0])];
      once[0].selected && |Subs(once[0])| == 4 && AllSubsSelected(Subs(once[0])) &&
      !Active(twice[0]) && twice == c
  {
    var c := DefaultCatalogue();
    var once := c[0 := ToggledFilter(c[0])];
    var twice := once[0 := ToggledFilter(once[0])];
    ToggledFilterFacts(c[0]);
    ToggledFilterFacts(once[0]);
    assert Subs(twice[0]) == Subs(c[0]);
    assert !SomeSubSelected(Subs(twice[0]));
  }

  /** With "sales" selected, switching its "unsorted" stage off clears
      "sales" and leaves the other three stages selected. */
  lemma UnsortedSwitchedOff()
    ensures var c := DefaultCatalogue();
      var sales := ToggledFilter(c[0]);
      |Subs(sales)| == 4 && Subs(sales)[0].id == "unsorted" &&
      var after := ToggledSubFilter(sales, 0);
      !after.selected && !Subs(after)[0].selected &&
      Subs(after)[1].selected && Subs(after)[2].selected && Subs(after)[3].selected
  {
    var c := DefaultCatalogue();
    ToggledFilterFacts(c[0]);
    var sales := ToggledFilter(c[0]);
    ToggledSubFilterFacts(sales, 0);
  }

  /** Selecting only "staff" gives the summary "1 воронка, 0 этапов". */
  lemma StaffOnlySummary()
    ensures var c := DefaultCatalogue();
      SelectedSummary(c[1 := ToggledFilter(c[1])]) == "1 воронка, 0 этапов"
  {
    var c := DefaultCatalogue();
    var fs := c[1 := ToggledFilter(c[1])];
    assert !SomeSubSelected(Subs(fs[0]));
    assert ActiveFilterCount(fs[..1]) == 0 by { assert fs[..1][..0] == []; }
    assert ActiveFilterCount(fs[..2]) == 1 by { assert fs[..2][..1] == fs[..1]; }
    assert ActiveFilterCount(fs[..3]) == 1 by { assert fs[..3][..2] == fs[..2]; }
    assert ActiveFilterCount(fs[..4]) == 1 by { assert fs[..4][..3] == fs[..3]; }
    assert ActiveFilterCount(fs) == 1 by { assert fs[..5][..4] == fs[..4] && fs[..5] == fs; }
    assert CountSelectedSubs(Subs(fs[0])) == 0 by { CountSelectedSubsFacts(Subs(fs[0])); }
    assert SubFlagCount(fs[..1]) == 0 by { assert fs[..1][..0] == []; }
    assert SubFlagCount(fs[..2]) == 0 by { assert fs[..2][..1] == fs[..1]; }
    assert SubFlagCount(fs[..3]) == 0 by { assert fs[..3][..2] == fs[..2]; }
    assert SubFlagCount(fs[..4]) == 0 by { assert fs[..4][..3] == fs[..3]; }
    assert SubFlagCount(fs) == 0 by { assert fs[..5][..4] == fs[..4] && fs[..5] == fs; }
    SummaryOneFilter(fs);
  }
}
