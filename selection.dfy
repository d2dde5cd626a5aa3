/**
 * The player selection step of the game page (game.js): a fixed list of
 * default players and a list of custom players, each entry a name with a
 * `selected` flag. Entries are toggled in place, custom names are added
 * after trimming when no entry of either list already has that name, and
 * confirming takes the selected names, the defaults first.
 */
module Selection {
  import opened JsText

  /** An entry of either list. */
  datatype Candidate = Candidate(name: string, selected: bool)

  /** `defaultPlayers`: six regulars, all selected at first. */
  function DefaultCandidates(): (cs: seq<Candidate>)
    ensures |cs| == 6
    ensures forall k :: 0 <= k < |cs| ==> cs[k].selected
  {
    [Candidate("豆豆", true), Candidate("秋妍", true), Candidate("宏伟", true),
     Candidate("秋佳", true), Candidate("凯瑟琳", true), Candidate("肥龙", true)]
  }

  /** The names of a list, in order. */
  function NamesOf(cs: seq<Candidate>): (names: seq<string>)
    ensures |names| == |cs|
    ensures forall k :: 0 <= k < |cs| ==> names[k] == cs[k].name
  {
    if cs == [] then [] else [cs[0].name] + NamesOf(cs[1..])
  }

  /** No name occurs twice. */
  predicate Distinct(names: seq<string>) {
    forall i, j :: 0 <= i < j < |names| ==> names[i] != names[j]
  }

  /** The default names are pairwise distinct. */
  lemma DefaultsDistinct()
    ensures Distinct(NamesOf(DefaultCandidates()))
  {
    var names := NamesOf(DefaultCandidates());
    assert names == ["豆豆", "秋妍", "宏伟", "秋佳", "凯瑟琳", "肥龙"];
  }

  /** `togglePlayerSelection(index)` and `toggleCustomPlayerSelection(index)`:
      the flag of one entry is flipped. */
  function Toggled(cs: seq<Candidate>, index: nat): (r: seq<Candidate>)
    requires index < |cs|
    ensures |r| == |cs| && NamesOf(r) == NamesOf(cs)
    ensures r[index].selected == !cs[index].selected
    ensures forall k :: 0 <= k < |cs| && k != index ==> r[k] == cs[k]
  {
    cs[index := cs[index].(selected := !cs[index].selected)]
  }

  /** Toggling an entry twice restores the list. */
  lemma ToggleTwice(cs: seq<Candidate>, index: nat)
    requires index < |cs|
    ensures Toggled(Toggled(cs, index), index) == cs
  {
    var r := Toggled(Toggled(cs, index), index);
    assert forall k :: 0 <= k < |cs| ==> r[k] == cs[k];
  }

  /** What `addCustomPlayer` does with a name typed in. */
  datatype AddOutcome = EmptyName | NameTaken | Added(name: string)

  /** The checks of `addCustomPlayer`: the trimmed name must not be empty and
      must not be the name of any entry of either list. */
  function AddOutcomeOf(defaults: seq<Candidate>, customs: seq<Candidate>, input: string): (outcome: AddOutcome)
    ensures outcome == EmptyName <==> Trim(input) == ""
    ensures outcome == NameTaken <==> Trim(input) != "" && Trim(input) in NamesOf(defaults) + NamesOf(customs)
    ensures outcome.Added? ==>
      outcome.name == Trim(input) && outcome.name != "" &&
      outcome.name !in NamesOf(defaults) && outcome.name !in NamesOf(customs)
  {
    var name := Trim(input);
    if name == "" then EmptyName
    else if name in NamesOf(defaults) + NamesOf(customs) then NameTaken
    else Added(name)
  }

  /** The custom list after `addCustomPlayer`: an accepted name is appended,
      selected; otherwise the list is unchanged. */
  function WithCustom(defaults: seq<Candidate>, customs: seq<Candidate>, input: string): (r: seq<Candidate>)
    ensures var outcome := AddOutcomeOf(defaults, customs, input);
      (outcome.Added? ==> r == customs + [Candidate(outcome.name, true)]) &&
      (!outcome.Added? ==> r == customs)
  {
    match AddOutcomeOf(defaults, customs, input)
    case Added(name) => customs + [Candidate(name, true)]
    case _ => customs
  }

  /** Helper: the names of a longer list. */
  lemma {:induction false} NamesOfAppend(cs: seq<Candidate>, c: Candidate)
    ensures NamesOf(cs + [c]) == NamesOf(cs) + [c.name]
  {
    if cs == [] {
      assert cs + [c] == [c];
    } else {
      assert (cs + [c])[1..] == cs[1..] + [c];
      NamesOfAppend(cs[1..], c);
    }
  }

  /** Adding a custom player keeps the names of the two lists together
      pairwise distinct. */
  lemma AddKeepsDistinct(defaults: seq<Candidate>, customs: seq<Candidate>, input: string)
    requires Distinct(NamesOf(defaults) + NamesOf(customs))
    ensures Distinct(NamesOf(defaults) + NamesOf(WithCustom(defaults, customs, input)))
  {
    var outcome := AddOutcomeOf(defaults, customs, input);
    if outcome.Added? {
      var c := Candidate(outcome.name, true);
      NamesOfAppend(customs, c);
      var before := NamesOf(defaults) + NamesOf(customs);
      var after := NamesOf(defaults) + NamesOf(customs + [c]);
      assert after == before + [outcome.name];
      assert outcome.name !in before;
      forall i, j | 0 <= i < j < |after|
        ensures after[i] != after[j]
      {
        if j == |before| {
          assert after[i] == before[i];
        } else {
          assert after[i] == before[i] && after[j] == before[j];
        }
      }
    }
  }

  /** `cs.filter(p => p.selected).map(p => p.name)` */
  function SelectedNames(cs: seq<Candidate>): (names: seq<string>)
    ensures |names| <= |cs|
  {
    if cs == [] then []
    else if cs[0].selected then [cs[0].name] + SelectedNames(cs[1..])
    else SelectedNames(cs[1..])
  }

  /** A name is picked exactly when some selected entry has it. */
  lemma {:induction false} SelectedNamesMembers(cs: seq<Candidate>, x: string)
    ensures x in SelectedNames(cs) <==> exists k :: 0 <= k < |cs| && cs[k].selected && cs[k].name == x
  {
    if cs != [] {
      SelectedNamesMembers(cs[1..], x);
      if exists k :: 0 <= k < |cs| && cs[k].selected && cs[k].name == x {
        var k :| 0 <= k < |cs| && cs[k].selected && cs[k].name == x;
        if k > 0 {
          assert cs[1..][k - 1] == cs[k];
        }
      }
      if exists k :: 0 <= k < |cs[1..]| && cs[1..][k].selected && cs[1..][k].name == x {
        var k :| 0 <= k < |cs[1..]| && cs[1..][k].selected && cs[1..][k].name == x;
        assert cs[k + 1] == cs[1..][k];
      }
    }
  }

  /** Entries are picked one by one in list order, so picking from two lists
      one after the other gives the names of the first, then of the second. */
  lemma {:induction false} SelectedNamesAppend(a: seq<Candidate>, b: seq<Candidate>)
    ensures SelectedNames(a + b) == SelectedNames(a) + SelectedNames(b)
  {
    if a == [] {
      assert a + b == b;
    } else {
      assert (a + b)[1..] == a[1..] + b;
      SelectedNamesAppend(a[1..], b);
    }
  }

  /** Nothing is picked exactly when no entry is selected. */
  lemma {:induction false} SelectedNamesEmpty(cs: seq<Candidate>)
    ensures SelectedNames(cs) == [] <==> forall k :: 0 <= k < |cs| ==> !cs[k].selected
  {
    if cs != [] {
      SelectedNamesEmpty(cs[1..]);
      if forall k :: 0 <= k < |cs[1..]| ==> !cs[1..][k].selected {
        assert forall k :: 1 <= k < |cs| ==> !cs[k].selected by {
          forall k | 1 <= k < |cs| ensures !cs[k].selected {
            assert cs[k] == cs[1..][k - 1];
          }
        }
      }
    }
  }

  /** `confirmPlayerSelection`: the selected default names in list order,
      then the selected custom names in list order. */
  function Selected(defaults: seq<Candidate>, customs: seq<Candidate>): (names: seq<string>)
    ensures |names| <= |defaults| + |customs|
  {
    SelectedNames(defaults) + SelectedNames(customs)
  }

  /** The selection is empty, and confirming is refused, exactly when no entry
      of either list is selected. */
  lemma SelectedEmpty(defaults: seq<Candidate>, customs: seq<Candidate>)
    ensures Selected(defaults, customs) == [] <==>
      (forall k :: 0 <= k < |defaults| ==> !defaults[k].selected) &&
      (forall k :: 0 <= k < |customs| ==> !customs[k].selected)
  {
    SelectedNamesEmpty(defaults);
    SelectedNamesEmpty(customs);
  }

  /** At first the selection is the six regulars, in list order. */
  lemma DefaultSelection()
    ensures Selected(DefaultCandidates(), []) == ["豆豆", "秋妍", "宏伟", "秋佳", "凯瑟琳", "肥龙"]
  {
  }
}
