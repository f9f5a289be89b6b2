/** The field extractor inside `insert` (main.py:76-126): from one parsed
    card page to a card record, by a decision procedure on the labels of the
    page's info box.

    HTML parsing is not modelled. A page is given by what the parsed
    document yields to the queries main.py makes of it. */
module Extract {
  import opened Wrappers
  import opened Seqs
  import opened Delimited

  const AbilityLabel: string := "特性"
  const MoveLabel: string := "ワザ"
  const VstarPowerLabel: string := "VSTARパワー"

  /** A parsed page:
      - sections: the number of `section.Section` regions;
      - headings: the stripped texts of the `h1.Heading1.mt20` nodes in the section;
      - infoBoxes: the number of `div.RightBox` nodes in the section;
      - labels: the texts of the `h2.mt20` nodes of the first info box, badges removed;
      - entries: the stripped texts of its `h4` nodes, in document order. */
  datatype Page = Page(sections: nat, headings: seq<string>, infoBoxes: nat,
                       labels: seq<string>, entries: seq<string>)

  datatype Card = Card(name: string, ability: string, attack: string)

  datatype Fields = Fields(ability: string, attack: string)

  /** The IndexErrors the extractor can raise, each of which ends the run. */
  datatype Fault =
    | NoHeading        // h1_tag = ...[0] on no heading (main.py:82)
    | NoInfoBox        // div_tag = ...[0] on no info box (main.py:86)
    | NoLabel          // h2_tag[0] on no label (main.py:99)
    | NoAbilityEntry   // h4_tag[0] on no entry (main.py:100)
    | WalkOverrun      // h4_tag[index+1] past the last entry (main.py:112, 115, 119)

  /** `insert` returning None before any write, crashing, or going on to
      write a card. */
  datatype Extraction = NoRecord | Crashed(fault: Fault) | Extracted(card: Card)

  /** The four layouts the first two labels select between. */
  datatype Layout = AbilityLayout | MoveLayout | MoveWithVstarPower | Unrecognized

  function LayoutOf(labels: seq<string>): (l: Layout)
    requires |labels| > 0
  {
    if labels[0] == AbilityLabel then AbilityLayout
    else if labels[0] == MoveLabel then
      if |labels| >= 2 && labels[1] == VstarPowerLabel then MoveWithVstarPower else MoveLayout
    else Unrecognized
  }

  /** The entries at which the VSTAR walk stops. */
  predicate IsMarker(s: string) { s == MoveLabel || s == AbilityLabel }

  /** The attack text the VSTAR walk has built when it reaches entry k without
      having met a marker: every earlier entry, each followed by a separator
      exactly when the entry after it is the move label. */
  function Pieces(e: seq<string>, k: nat): (attack: string)
    requires k < |e|
  {
    if k == 0 then ""
    else Pieces(e, k - 1) + e[k - 1] + (if e[k] == MoveLabel then [Sep] else [])
  }

  /** The VSTAR walk (main.py:110-120) as a function of the entries: it stops
      at the first marker and appends the entry after it to the attack field
      (move label) or to the ability field (ability label). It indexes past
      the end when it reaches the last entry without having stopped. */
  function VstarFields(e: seq<string>): (r: Result<Fields, Fault>)
    ensures r.Failure? <==> |e| > 0 && forall i :: 0 <= i < |e| - 1 ==> !IsMarker(e[i])
    ensures r.Failure? ==> r.error == WalkOverrun
    ensures e == [] ==> r == Success(Fields("", ""))
    ensures r.Success? && e != [] ==>
      exists k ::
        && 0 <= k < |e| - 1 && IsMarker(e[k])
        && (forall i :: 0 <= i < k ==> !IsMarker(e[i]))
        && (e[k] == AbilityLabel ==> r.value == Fields(e[k + 1], Pieces(e, k)))
        && (e[k] == MoveLabel ==> r.value == Fields("", Pieces(e, k) + e[k + 1]))
  {
    match FirstWhere(e, IsMarker)
    case None => if e == [] then Success(Fields("", "")) else Failure(WalkOverrun)
    case Some(k) =>
      if k + 1 == |e| then Failure(WalkOverrun)
      else if e[k] == MoveLabel then Success(Fields("", Pieces(e, k) + e[k + 1]))
      else Success(Fields(e[k + 1], Pieces(e, k)))
  }

  /** The ability and attack fields for a non-empty label list. */
  function FieldsOf(labels: seq<string>, entries: seq<string>): (r: Result<Fields, Fault>)
    requires |labels| > 0
    // only the ability layout without entries and the VSTAR walk can fail
    ensures r.Failure? <==>
      || (labels[0] == AbilityLabel && entries == [])
      || (LayoutOf(labels) == MoveWithVstarPower && VstarFields(entries).Failure?)
    // only the ability layout and the VSTAR walk can fill the ability field
    ensures r.Success? && r.value.ability != "" ==>
      labels[0] == AbilityLabel || LayoutOf(labels) == MoveWithVstarPower
    // an unknown first label leaves both fields empty
    ensures labels[0] != AbilityLabel && labels[0] != MoveLabel ==> r == Success(Fields("", ""))
  {
    match LayoutOf(labels)
    case AbilityLayout =>
      if entries == [] then Failure(NoAbilityEntry)
      else Success(Fields(entries[0], Join(entries[1..])))
    case MoveLayout => Success(Fields("", Join(entries)))
    case MoveWithVstarPower => VstarFields(entries)
    case Unrecognized => Success(Fields("", ""))
  }

  /** What main.py:76-126 makes of a page. */
  function ExtractionOf(p: Page): (r: Extraction)
    ensures r == NoRecord <==> p.sections != 1
    ensures r.Extracted? ==> p.headings != [] && r.card.name == p.headings[0]
    ensures p.sections == 1 && p.headings == [] ==> r == Crashed(NoHeading)
    ensures p.sections == 1 && p.headings != [] && p.infoBoxes == 0 ==> r == Crashed(NoInfoBox)
    ensures p.sections == 1 && p.headings != [] && p.infoBoxes > 0 && p.labels == [] ==>
      r == Crashed(NoLabel)
    ensures r.Crashed? ==> p.sections == 1
  {
    if p.sections != 1 then NoRecord
    else if p.headings == [] then Crashed(NoHeading)
    else if p.infoBoxes == 0 then Crashed(NoInfoBox)
    else if p.labels == [] then Crashed(NoLabel)
    else match FieldsOf(p.labels, p.entries)
      case Failure(f) => Crashed(f)
      case Success(fs) => Extracted(Card(p.headings[0], fs.ability, fs.attack))
  }

  /** The loop of main.py:110-120, over the entries in order. */
  method VstarWalk(e: seq<string>) returns (r: Result<Fields, Fault>)
    ensures r == VstarFields(e)
  {
    var ability, attack := "", "";
    var index := 0;
    while index < |e|
      invariant 0 <= index <= |e|
      invariant index > 0 ==> index < |e|
      invariant forall j :: 0 <= j < index ==> !IsMarker(e[j])
      invariant index < |e| ==> attack == Pieces(e, index)
      invariant index == 0 ==> attack == ""
      invariant ability == ""
    {
      var value := e[index];
      if IsMarker(value) {
        assert FirstWhere(e, IsMarker) == Some(index);
      }
      if value == MoveLabel {
        if index + 1 >= |e| { return Failure(WalkOverrun); }
        attack := attack + e[index + 1];
        break;
      } else if value == AbilityLabel {
        if index + 1 >= |e| { return Failure(WalkOverrun); }
        assert AbilityLabel[0] != MoveLabel[0];
        ability := ability + e[index + 1];
        assert ability == e[index + 1];
        break;
      } else {
        attack := attack + value;
        if index + 1 >= |e| {
          assert FirstWhere(e, IsMarker) == None;
          return Failure(WalkOverrun);
        }
        if e[index + 1] == MoveLabel {
          attack := attack + [Sep];
        }
      }
      index := index + 1;
    }
    r := Success(Fields(ability, attack));
  }

  /** main.py:76-126: the shape check, the heading and info-box lookups, and
      the branch on the first label. */
  method ExtractCard(p: Page) returns (out: Extraction)
    ensures out == ExtractionOf(p)
  {
    if p.sections != 1 {
      return NoRecord;
    }
    if |p.headings| == 0 {
      return Crashed(NoHeading);
    }
    var name := p.headings[0];
    if p.infoBoxes == 0 {
      return Crashed(NoInfoBox);
    }
    if |p.labels| == 0 {
      return Crashed(NoLabel);
    }
    var ability, attack := "", "";
    if p.labels[0] == AbilityLabel {
      if |p.entries| == 0 {
        return Crashed(NoAbilityEntry);
      }
      ability := p.entries[0];
      attack := JoinWithSlash(p.entries[1..]);
    }
    if p.labels[0] == MoveLabel {
      if |p.labels| >= 2 && p.labels[1] == VstarPowerLabel {
        var w := VstarWalk(p.entries);
        if w.Failure? {
          return Crashed(w.error);
        }
        ability, attack := ability + w.value.ability, attack + w.value.attack;
      } else {
        attack := JoinWithSlash(p.entries);
      }
    }
    out := Extracted(Card(name, ability, attack));
  }

  /** The three labels are different strings. */
  lemma LabelsDistinct()
    ensures AbilityLabel != MoveLabel
    ensures VstarPowerLabel != AbilityLabel && VstarPowerLabel != MoveLabel
  {
  }

  /** A page whose section, heading, info box and first label are all found. */
  predicate WellFormed(p: Page)
  {
    p.sections == 1 && p.headings != [] && p.infoBoxes > 0 && p.labels != []
  }

  /** Ability-first layout (main.py:99-106): the ability is the first entry,
      the attack lists the other entries, and a single entry leaves the
      attack empty. */
  lemma AbilityLayoutCard(p: Page)
    requires WellFormed(p) && p.labels[0] == AbilityLabel && p.entries != []
    ensures ExtractionOf(p).Extracted?
    ensures ExtractionOf(p).card.ability == p.entries[0]
    ensures ExtractionOf(p).card.attack == Join(p.entries[1..])
    ensures |p.entries| == 1 ==> ExtractionOf(p).card.attack == ""
    ensures |p.entries| >= 2 && (forall i :: 0 <= i < |p.entries| ==> NoSep(p.entries[i])) ==>
      Split(ExtractionOf(p).card.attack) == p.entries[1..]
  {
    if |p.entries| >= 2 && (forall i :: 0 <= i < |p.entries| ==> NoSep(p.entries[i])) {
      var rest := p.entries[1..];
      assert forall i :: 0 <= i < |rest| ==> rest[i] == p.entries[i + 1];
      SplitJoin(rest);
    }
  }

  /** Ability-first layout without any entry: `h4_tag[0]` fails (main.py:100). */
  lemma AbilityLayoutWithoutEntry(p: Page)
    requires WellFormed(p) && p.labels[0] == AbilityLabel && p.entries == []
    ensures ExtractionOf(p) == Crashed(NoAbilityEntry)
  {
  }

  /** Move-first layout without a VSTAR power label (main.py:108, 121-126):
      no ability, and the attack lists all entries. */
  lemma MoveLayoutCard(p: Page)
    requires WellFormed(p) && p.labels[0] == MoveLabel
    requires !(|p.labels| >= 2 && p.labels[1] == VstarPowerLabel)
    ensures ExtractionOf(p).Extracted?
    ensures ExtractionOf(p).card.ability == ""
    ensures ExtractionOf(p).card.attack == Join(p.entries)
    ensures p.entries != [] && (forall i :: 0 <= i < |p.entries| ==> NoSep(p.entries[i])) ==>
      Split(ExtractionOf(p).card.attack) == p.entries
  {
    LabelsDistinct();
    if p.entries != [] && (forall i :: 0 <= i < |p.entries| ==> NoSep(p.entries[i])) {
      SplitJoin(p.entries);
    }
  }

  /** Move-first layout with a VSTAR power label (main.py:109-120): the
      card's fields are those of the VSTAR walk, or the walk's crash. */
  lemma VstarLayoutCard(p: Page)
    requires WellFormed(p) && p.labels[0] == MoveLabel
    requires |p.labels| >= 2 && p.labels[1] == VstarPowerLabel
    ensures VstarFields(p.entries).Failure? ==> ExtractionOf(p) == Crashed(WalkOverrun)
    ensures VstarFields(p.entries).Success? ==>
      var f := VstarFields(p.entries).value;
      ExtractionOf(p) == Extracted(Card(p.headings[0], f.ability, f.attack))
  {
  }

  /** A first label that is neither the ability nor the move label still
      yields a card, with both fields empty (main.py:97-98). */
  lemma UnrecognizedLayoutCard(p: Page)
    requires WellFormed(p) && p.labels[0] != AbilityLabel && p.labels[0] != MoveLabel
    ensures ExtractionOf(p) == Extracted(Card(p.headings[0], "", ""))
  {
  }

  /** Plain concatenation, without separators. */
  function Concat(xs: seq<string>): (s: string)
  {
    if xs == [] then "" else Concat(xs[..|xs| - 1]) + xs[|xs| - 1]
  }

  /** Without a move label among entries 1..k the walk puts no separator
      into the attack text. */
  lemma {:induction false} PiecesWithoutMove(e: seq<string>, k: nat)
    requires k < |e|
    requires forall i :: 1 <= i <= k ==> e[i] != MoveLabel
    ensures Pieces(e, k) == Concat(e[..k])
  {
    if k > 0 {
      PiecesWithoutMove(e, k - 1);
      assert e[..k][..k - 1] == e[..k - 1];
    }
  }

  /** The attack text the walk has built on reaching the marker that ends
      the ordinary entries `ms`. */
  lemma PiecesBeforeMarker(ms: seq<string>, marker: string, x: string, rest: seq<string>)
    requires forall i :: 0 <= i < |ms| ==> !IsMarker(ms[i])
    ensures Pieces(ms + [marker, x] + rest, |ms|) ==
      Concat(ms) + (if ms != [] && marker == MoveLabel then [Sep] else [])
  {
    var e := ms + [marker, x] + rest;
    var k := |ms|;
    if k > 0 {
      assert forall i :: 0 <= i < k ==> e[i] == ms[i];
      PiecesWithoutMove(e, k - 1);
      assert e[..k - 1] == ms[..k - 1];
      assert e[k] == marker;
    }
  }

  /** The VSTAR walk over a layout of ordinary entries `ms`, a marker, the
      entry `x` that follows it and anything after: the walk stops at the
      marker, reads nothing of `rest`, and joins the ordinary entries with a
      single separator, placed before `x` when the marker is the move label. */
  lemma VstarEntriesThenMarker(ms: seq<string>, marker: string, x: string, rest: seq<string>)
    requires forall i :: 0 <= i < |ms| ==> !IsMarker(ms[i])
    requires IsMarker(marker)
    ensures marker == MoveLabel ==>
      VstarFields(ms + [marker, x] + rest) ==
        Success(Fields("", Concat(ms) + (if ms == [] then "" else [Sep]) + x))
    ensures marker == AbilityLabel ==>
      VstarFields(ms + [marker, x] + rest) == Success(Fields(x, Concat(ms)))
  {
    LabelsDistinct();
    var e := ms + [marker, x] + rest;
    var k := |ms|;
    assert e[k] == marker && e[k + 1] == x;
    assert FirstWhere(e, IsMarker) == Some(k) by {
      assert forall i :: 0 <= i < k ==> e[i] == ms[i];
    }
    PiecesBeforeMarker(ms, marker, x, rest);
    var piece := Pieces(e, k);
    if marker == MoveLabel {
      assert VstarFields(e) == Success(Fields("", piece + x));
    } else {
      assert marker != MoveLabel;
      assert piece == Concat(ms) + [];
      assert Concat(ms) + [] == Concat(ms);
      assert VstarFields(e) == Success(Fields(x, piece));
    }
  }
}
