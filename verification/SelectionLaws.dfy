/**
 What a selection is, told by its own rows: each table holds exactly what hangs from, or is named by, what is selected.
 */
module SelectionLaws {
  import opened Values
  import opened Content
  import opened Selection

  /** A selected row hangs directly from a selected row of its table's parent. */
  ghost predicate HangsFromSelected(selected: Tables, t: Table, row: Row)
    requires IsContent(selected) && ParentOf(t).Some? && InCurriculum(ParentOf(t).value.to)
  {
    exists parent ::
      parent in selected[ParentOf(t).value.to] && KeyIn(parent, ParentOf(t).value.to).Some? &&
      KeyIn(parent, ParentOf(t).value.to) == KeyOf(Get(row, ParentOf(t).value.fk))
  }

  /** Some selected row of the curriculum's own tables has a reference that names this bank row. */
  ghost predicate IsNamed(selected: Tables, bank: Table, row: Row)
    requires IsContent(selected)
  {
    exists t, ref, r ::
      IsTree(t) && ref in Refs(t) && ref.to == bank && r in selected[t] && KeyIn(row, bank).Some? &&
      KeyOf(Get(r, ref.fk)) == KeyIn(row, bank)
  }

  /** A translation says which table and which row it is of, and that row is selected. */
  ghost predicate IsOfSelected(selected: Tables, row: Row)
    requires IsContent(selected)
  {
    exists t, r ::
      Substantive(t) && PolyTable(row) == Some(t) && r in selected[t] && KeyIn(r, t).Some? &&
      KeyIn(r, t) == PolyKey(row)
  }

  lemma CurriculumIsTheWanted(all: Tables, wanted: Option<string>, row: Row)
    requires IsContent(all)
    ensures multiset(Selected(all, wanted)[Curriculums])[row] ==
            if KeyIn(row, Curriculums) == wanted then multiset(all[Curriculums])[row] else 0
  {
    hide KeyIn, WithKey;
    SelectedIsContent(all, wanted);
    CurriculumRowsAre(all, wanted);
    WithKeyHolds(all[Curriculums], Curriculums, wanted);
  }

  lemma TreeIsWhatHangs(all: Tables, wanted: Option<string>, t: Table, row: Row)
    requires IsContent(all) && IsTree(t) && t != Curriculums
    ensures ParentOf(t).Some? && IsTree(ParentOf(t).value.to)
    ensures multiset(Selected(all, wanted)[t])[row] ==
            if HangsFromSelected(Selected(all, wanted), t, row) then multiset(all[t])[row] else 0
  {
    hide Under, TreeRows, Get, Pk, TranslationsOf;
    SelectedIsContent(all, wanted);
    TreeRowsAreUnder(all, wanted, t);
    var p := ParentOf(t).value;
    UnderHolds(all[t], p.fk, Ids(TreeRows(all, wanted, p.to), p.to));
  }

  /**
   The questions and documents selected are exactly those that a selected row names, each as often as it was given.
   */
  lemma BanksAreWhatIsNamed(all: Tables, wanted: Option<string>, bank: Table, row: Row)
    requires IsContent(all) && IsBank(bank)
    ensures multiset(Selected(all, wanted)[bank])[row] ==
            if IsNamed(Selected(all, wanted), bank, row) then multiset(all[bank])[row] else 0
  {
    hide Under, TreeRows, Get, NamedVia, TranslationsOf, Refs;
    SelectedIsContent(all, wanted);
    UnderHolds(all[bank], Pk(bank), Named(all, wanted, bank));
    NamedIs(all, wanted, bank, row);
  }

  lemma SelectedTree(all: Tables, wanted: Option<string>, t: Table)
    requires IsContent(all)
    ensures IsTree(t) ==> Selected(all, wanted)[t] == TreeRows(all, wanted, t)
  {
  }

  lemma NamedByIs(rows: seq<Row>, fk: string, id: string)
    ensures id in NamedBy(rows, fk) <==> exists r :: r in rows && KeyOf(Get(r, fk)) == Some(id)
  {
    hide Get, KeyOf;
  }

  /** A row of one table refers to the bank's row of this id. */
  ghost predicate Refers(rows: seq<Row>, t: Table, bank: Table, id: string) {
    exists ref, r :: ref in Refs(t) && ref.to == bank && r in rows && KeyOf(Get(r, ref.fk)) == Some(id)
  }

  lemma NamedViaIs(rows: seq<Row>, t: Table, bank: Table, id: string)
    ensures id in NamedVia(rows, Refs(t), bank) <==> Refers(rows, t, bank, id)
  {
    hide Refs, Get, KeyOf, NamedVia, NamedBy;
    NamedViaHolds(rows, Refs(t), bank, id);
    forall fk ensures id in NamedBy(rows, fk) <==> exists r :: r in rows && KeyOf(Get(r, fk)) == Some(id) {
      NamedByIs(rows, fk, id);
    }
  }

  lemma NamedInIs(all: Tables, wanted: Option<string>, bank: Table, t: Table, id: string)
    requires IsContent(all)
    ensures id in NamedIn(all, wanted, bank, t) <==> IsTree(t) && Refers(Selected(all, wanted)[t], t, bank, id)
  {
    hide TreeRows, NamedVia, Refs, Refers;
    SelectedTree(all, wanted, t);
    if IsTree(t) { NamedViaIs(TreeRows(all, wanted, t), t, bank, id); }
  }

  lemma NamedIs(all: Tables, wanted: Option<string>, bank: Table, row: Row)
    requires IsContent(all) && IsBank(bank)
    ensures Names(row, Pk(bank), Named(all, wanted, bank)) <==> IsNamed(Selected(all, wanted), bank, row)
  {
    hide TreeRows, Get, NamedIn, Refs, Pk, KeyOf, Selected;
    var selected := Selected(all, wanted);
    var key := KeyIn(row, bank);
    if key.Some? {
      forall t ensures key.value in NamedIn(all, wanted, bank, t) <==>
          IsTree(t) && Refers(selected[t], t, bank, key.value) {
        NamedInIs(all, wanted, bank, t, key.value);
      }
    }
  }

  /** The translations selected are exactly those of selected rows, each as often as it was given. */
  lemma TranslationsAreOfSelected(all: Tables, wanted: Option<string>, row: Row)
    requires IsContent(all)
    ensures multiset(Selected(all, wanted)[ContentTranslations])[row] ==
            if IsOfSelected(Selected(all, wanted), row) then multiset(all[ContentTranslations])[row] else 0
  {
    hide Picked, TranslationsOf, Get;
    SelectedIsContent(all, wanted);
    TranslationsOfHolds(Picked(all, wanted), all[ContentTranslations]);
    PickedTables(all, wanted);
    assert HangsFromPicked(Picked(all, wanted), row) <==> IsOfSelected(Selected(all, wanted), row);
  }

  lemma PickedTables(all: Tables, wanted: Option<string>)
    requires IsContent(all)
    ensures forall t :: t in Picked(all, wanted) <==> Substantive(t)
  {
  }
}
