/** The options catalog of the coordination server: the settings schema that cameras report, kept as
    the intersection of the choice lists of every camera that has reported (server.py, update_options). */
module Catalog {

  import opened Wrappers

  type Choice = string

  /** One camera setting. `attributes` stands for the setting's other fields (type, read-only flag,
      current value, range), which the merge never touches; `choices` is present only for settings
      whose values come from a list. */
  datatype Setting = Setting(attributes: map<string, string>, choices: Option<seq<Choice>>)

  type Section = map<string, Setting>

  /** section name -> setting name -> setting */
  type Schema = map<string, Section>

  // ---------------------------------------------------------------------------------------------
  // Choice lists

  /** The choices of `current` that are also offered in `offered`, in their original order. */
  function Keep(current: seq<Choice>, offered: seq<Choice>): seq<Choice>
  {
    if current == [] then []
    else (if current[0] in offered then [current[0]] else []) + Keep(current[1..], offered)
  }

  /** The choices of `current` that are not offered, in order and with repetitions: the list
      `to_del` that update_options collects before removing anything. */
  function Dropped(current: seq<Choice>, offered: seq<Choice>): seq<Choice>
  {
    if current == [] then []
    else (if current[0] in offered then [] else [current[0]]) + Dropped(current[1..], offered)
  }

  /** Python's `list.remove(x)`: deletes the first occurrence of `x`. */
  function RemoveFirst(s: seq<Choice>, x: Choice): (r: seq<Choice>)
    requires x in s
    ensures |r| == |s| - 1
    ensures multiset(r) == multiset(s) - multiset{x}
  {
    if s[0] == x then
      assert s == [s[0]] + s[1..];
      s[1..]
    else
      assert s == [s[0]] + s[1..];
      [s[0]] + RemoveFirst(s[1..], x)
  }

  /** A choice survives the merge exactly as often as it occurred before if it is offered, and not at
      all otherwise: nothing is ever added and nothing offered is lost. */
  lemma {:induction false} KeepCount(current: seq<Choice>, offered: seq<Choice>, x: Choice)
    ensures multiset(Keep(current, offered))[x] == if x in offered then multiset(current)[x] else 0
  {
    if current != [] {
      KeepCount(current[1..], offered, x);
      assert current == [current[0]] + current[1..];
    }
  }

  /** Membership form of KeepCount. */
  lemma KeepMember(current: seq<Choice>, offered: seq<Choice>, x: Choice)
    ensures x in Keep(current, offered) <==> x in current && x in offered
  {
    KeepCount(current, offered, x);
    assert x in Keep(current, offered) <==> x in multiset(Keep(current, offered));
    assert x in current <==> x in multiset(current);
  }

  /** The merge preserves order: it distributes over concatenation, so choices that survive keep
      their relative positions. */
  lemma {:induction false} KeepAppend(a: seq<Choice>, b: seq<Choice>, offered: seq<Choice>)
    ensures Keep(a + b, offered) == Keep(a, offered) + Keep(b, offered)
  {
    if a != [] {
      assert (a + b)[0] == a[0] && (a + b)[1..] == a[1..] + b;
      KeepAppend(a[1..], b, offered);
    } else {
      assert a + b == b;
    }
  }

  lemma {:induction false} DroppedAppend(a: seq<Choice>, b: seq<Choice>, offered: seq<Choice>)
    ensures Dropped(a + b, offered) == Dropped(a, offered) + Dropped(b, offered)
  {
    if a != [] {
      assert (a + b)[0] == a[0] && (a + b)[1..] == a[1..] + b;
      DroppedAppend(a[1..], b, offered);
    } else {
      assert a + b == b;
    }
  }

  /** Merging the same list twice changes nothing more: `Keep` is idempotent. */
  lemma {:induction false} KeepIdempotent(current: seq<Choice>, offered: seq<Choice>)
    ensures Keep(Keep(current, offered), offered) == Keep(current, offered)
  {
    if current != [] {
      KeepIdempotent(current[1..], offered);
      var head := if current[0] in offered then [current[0]] else [];
      KeepAppend(head, Keep(current[1..], offered), offered);
      if current[0] in offered {
        assert head == [current[0]] + [];
      }
    }
  }

  /** A list merged with a report offering all of its choices is unchanged. */
  lemma {:induction false} KeepAllOffered(current: seq<Choice>, offered: seq<Choice>)
    requires forall i :: 0 <= i < |current| ==> current[i] in offered
    ensures Keep(current, offered) == current
  {
    if current != [] {
      KeepAllOffered(current[1..], offered);
      assert current == [current[0]] + current[1..];
    }
  }

  /** Removing the first not-offered choice (what `list.remove(to_del[0])` does) leaves the
      surviving choices alone and shortens the list of choices still to delete by its head. */
  lemma {:induction false} RemoveFirstDropped(s: seq<Choice>, offered: seq<Choice>)
    requires Dropped(s, offered) != []
    ensures Dropped(s, offered)[0] in s
    ensures var r := RemoveFirst(s, Dropped(s, offered)[0]);
      Keep(r, offered) == Keep(s, offered) && Dropped(r, offered) == Dropped(s, offered)[1..]
  {
    var d := Dropped(s, offered)[0];
    if s[0] in offered {
      assert Dropped(s, offered) == Dropped(s[1..], offered);
      RemoveFirstDropped(s[1..], offered);
      assert s[0] != d by { KeepMember([d], offered, d); DroppedHeadNotOffered(s, offered); }
      var r := RemoveFirst(s, d);
      assert r == [s[0]] + RemoveFirst(s[1..], d);
      assert r[1..] == RemoveFirst(s[1..], d);
    } else {
      assert d == s[0];
    }
  }

  lemma {:induction false} DroppedHeadNotOffered(s: seq<Choice>, offered: seq<Choice>)
    requires Dropped(s, offered) != []
    ensures Dropped(s, offered)[0] !in offered
  {
    if s[0] in offered {
      DroppedHeadNotOffered(s[1..], offered);
    }
  }

  /** Once nothing is left to delete, the list is exactly its surviving choices. */
  lemma {:induction false} NothingDropped(s: seq<Choice>, offered: seq<Choice>)
    requires Dropped(s, offered) == []
    ensures Keep(s, offered) == s
  {
    if s != [] {
      NothingDropped(s[1..], offered);
      assert s == [s[0]] + s[1..];
    }
  }

  /** The inner loops of update_options for one setting: collect `to_del`, then remove each entry
      with `list.remove`. The result is the list of previous choices that are also offered. */
  method PruneChoices(current: seq<Choice>, offered: seq<Choice>) returns (kept: seq<Choice>)
    ensures kept == Keep(current, offered)
  {
    var toDel: seq<Choice> := [];
    var i := 0;
    while i < |current|
      invariant 0 <= i <= |current|
      invariant toDel == Dropped(current[..i], offered)
    {
      if current[i] !in offered {
        toDel := toDel + [current[i]];
      }
      DroppedAppend(current[..i], [current[i]], offered);
      assert current[..i + 1] == current[..i] + [current[i]];
      i := i + 1;
    }
    assert current[..i] == current;
    kept := current;
    var j := 0;
    while j < |toDel|
      invariant 0 <= j <= |toDel|
      invariant Keep(kept, offered) == Keep(current, offered)
      invariant Dropped(kept, offered) == toDel[j..]
    {
      RemoveFirstDropped(kept, offered);
      kept := RemoveFirst(kept, toDel[j]);
      j := j + 1;
    }
    NothingDropped(kept, offered);
  }

  // ---------------------------------------------------------------------------------------------
  // Settings, sections and the whole schema

  /** Whether a reported setting can be merged into the catalog's: the reported `choices` is read
      only while iterating over the catalog's choices, so it must be present exactly when the
      catalog's setting has a non-empty choice list. */
  predicate SettingMergeable(current: Setting, reported: Setting)
  {
    current.choices.Some? && current.choices.value != [] ==> reported.choices.Some?
  }

  /** A report can be merged into a catalog section when every setting it names exists in the
      section and can be merged into it; otherwise the source raises a KeyError. */
  predicate SectionMergeable(current: Section, report: Section)
  {
    forall name :: name in report ==> name in current && SettingMergeable(current[name], report[name])
  }

  /** The catalog section is looked up only while iterating over the report's settings, so a
      reported section without settings never raises even if the catalog lacks it. */
  predicate Mergeable(current: Schema, report: Schema)
  {
    forall s :: s in report && report[s] != map[] ==>
      s in current && SectionMergeable(current[s], report[s])
  }

  function PruneSetting(current: Setting, reported: Setting): Setting
    requires SettingMergeable(current, reported)
  {
    match current.choices
    case None => current
    case Some(cs) => if cs == [] then current else current.(choices := Some(Keep(cs, reported.choices.value)))
  }

  function PruneSection(current: Section, report: Section): Section
    requires SectionMergeable(current, report)
  {
    map name | name in current ::
      if name in report then PruneSetting(current[name], report[name]) else current[name]
  }

  /** The catalog after a later report: every choice list shrinks to the choices the report also
      offers; settings and sections the report does not name stay as they are; `None` when the
      source raises. */
  function Merge(current: Schema, report: Schema): Option<Schema>
  {
    if Mergeable(current, report) then
      Some(map s | s in current ::
        if s in report && report[s] != map[] then PruneSection(current[s], report[s]) else current[s])
    else
      None
  }

  /** The loop over one reported section's settings. */
  method MergeSectionReport(current: Section, report: Section) returns (merged: Option<Section>)
    ensures merged == if SectionMergeable(current, report) then Some(PruneSection(current, report)) else None
  {
    var section := current;
    var todo := report.Keys;
    while todo != {}
      invariant todo <= report.Keys
      invariant forall name :: name in report && name !in todo ==>
        name in current && SettingMergeable(current[name], report[name])
      invariant section.Keys == current.Keys
      invariant forall name :: name in current ==>
        section[name] == if name in report && name !in todo then PruneSetting(current[name], report[name]) else current[name]
      decreases |todo|
    {
      var name :| name in todo;
      if name !in current {
        return None;
      }
      match current[name].choices {
        case None =>
        case Some(cs) =>
          if cs != [] {
            if report[name].choices.None? {
              return None;
            }
            var kept := PruneChoices(cs, report[name].choices.value);
            section := section[name := current[name].(choices := Some(kept))];
          }
      }
      todo := todo - {name};
    }
    assert section == PruneSection(current, report);
    return Some(section);
  }

  /** The outer loop of update_options over the report's sections. */
  method MergeReport(current: Schema, report: Schema) returns (merged: Option<Schema>)
    ensures merged == Merge(current, report)
  {
    var catalog := current;
    var todo := report.Keys;
    while todo != {}
      invariant todo <= report.Keys
      invariant forall s :: s in report && s !in todo && report[s] != map[] ==>
        s in current && SectionMergeable(current[s], report[s])
      invariant catalog.Keys == current.Keys
      invariant forall s :: s in current ==>
        catalog[s] == if s in report && s !in todo && report[s] != map[] then PruneSection(current[s], report[s]) else current[s]
      decreases |todo|
    {
      var s :| s in todo;
      if report[s] != map[] {
        if s !in current {
          assert !Mergeable(current, report);
          return None;
        }
        var section := MergeSectionReport(current[s], report[s]);
        if section.None? {
          assert !Mergeable(current, report);
          return None;
        }
        catalog := catalog[s := section.value];
      }
      todo := todo - {s};
    }
    assert Mergeable(current, report);
    assert catalog == Merge(current, report).value;
    return Some(catalog);
  }

  // ---------------------------------------------------------------------------------------------
  // Properties of the merge

  /** Shrink-only: the merge keeps every section and setting, adds none, leaves what the report
      does not name untouched, and each choice list afterwards holds only choices it held before,
      never more often than before. */
  lemma MergeShrinks(current: Schema, report: Schema, s: string, name: string, x: Choice)
    requires Merge(current, report).Some?
    requires s in current && name in current[s]
    ensures var merged := Merge(current, report).value;
      && merged.Keys == current.Keys
      && merged[s].Keys == current[s].Keys
      && merged[s][name].attributes == current[s][name].attributes
      && merged[s][name].choices.Some? == current[s][name].choices.Some?
      && (merged[s][name].choices.Some? ==>
            multiset(merged[s][name].choices.value)[x] <= multiset(current[s][name].choices.value)[x])
      && (s !in report || name !in report[s] ==> merged[s][name] == current[s][name])
  {
    var merged := Merge(current, report).value;
    if current[s][name].choices.Some? {
      var cs := current[s][name].choices.value;
      if s in report && report[s] != map[] && name in report[s] && cs != [] {
        KeepCount(cs, report[s][name].choices.value, x);
      }
    }
  }

  /** What a report removes stays removed: a choice missing from the catalog's list is missing
      after any later merge, so a camera that offers it again cannot bring it back. */
  lemma DroppedStaysDropped(current: Schema, report: Schema, s: string, name: string, x: Choice)
    requires Merge(current, report).Some?
    requires s in current && name in current[s] && current[s][name].choices.Some?
    requires x !in current[s][name].choices.value
    ensures x !in Merge(current, report).value[s][name].choices.value
  {
    MergeShrinks(current, report, s, name, x);
    var cs := Merge(current, report).value[s][name].choices.value;
    assert x in cs <==> x in multiset(cs);
    assert x in current[s][name].choices.value <==> x in multiset(current[s][name].choices.value);
  }

  /** A surviving choice is one that the catalog had and the report offers, for every setting the
      report names. */
  lemma MergedChoices(current: Schema, report: Schema, s: string, name: string, x: Choice)
    requires Merge(current, report).Some?
    requires s in report && name in report[s]
    ensures s in current && name in current[s]
    ensures current[s][name].choices.Some? && current[s][name].choices.value != [] ==>
      report[s][name].choices.Some?
    ensures current[s][name].choices.Some? && report[s][name].choices.Some? ==>
      (x in Merge(current, report).value[s][name].choices.value <==>
        x in current[s][name].choices.value && x in report[s][name].choices.value)
  {
    if current[s][name].choices.Some? && report[s][name].choices.Some? {
      KeepMember(current[s][name].choices.value, report[s][name].choices.value, x);
    }
  }

  /** The camera whose first report seeded the catalog is asked for its options again; its second,
      identical report is accepted and leaves the catalog unchanged. */
  lemma {:induction false} MergeWithItself(schema: Schema)
    ensures Merge(schema, schema) == Some(schema)
  {
    assert Mergeable(schema, schema);
    var merged := Merge(schema, schema).value;
    forall s | s in schema
      ensures merged[s] == schema[s]
    {
      forall name | name in schema[s]
        ensures PruneSetting(schema[s][name], schema[s][name]) == schema[s][name]
      {
        if schema[s][name].choices.Some? {
          var cs := schema[s][name].choices.value;
          KeepAllOffered(cs, cs);
        }
      }
      assert PruneSection(schema[s], schema[s]) == schema[s];
    }
    assert merged == schema;
  }

  /** A report that names a setting the catalog does not have is refused as a whole. */
  lemma UnknownSettingRefused(current: Schema, report: Schema, s: string, name: string)
    requires s in report && name in report[s]
    requires s !in current || name !in current[s]
    ensures Merge(current, report) == None
  {
  }

  /** So is a report that omits `choices` for a setting whose catalog list is not empty. */
  lemma MissingChoicesRefused(current: Schema, report: Schema, s: string, name: string)
    requires s in report && name in report[s] && s in current && name in current[s]
    requires current[s][name].choices.Some? && current[s][name].choices.value != []
    requires report[s][name].choices.None?
    ensures Merge(current, report) == None
  {
  }
}
