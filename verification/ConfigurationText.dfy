/** The driver's configuration file: a text that is parsed, edited as a document and printed
    once for every mode, and compared with what was read. */
module ConfigurationText {
  import opened HostText
  import opened DisplayModes
  import opened DriverConfiguration
  import VitaModes

  // What the XML library does: the tree that a text holds, if it is a document, and the
  // text with another tree in its place.
  datatype Markup = Markup(parse: string -> Option<Tree>, show: (string, Tree) -> string)

  // A printed tree is parsed again, and printing it once more changes nothing.
  ghost predicate Stable(markup: Markup) {
    forall s: string, t: Tree | markup.parse(s).Some? ::
      var printed := markup.show(s, t);
      markup.parse(printed) == Some(t) && markup.show(printed, t) == printed
  }

  // AddModeToConfiguration; none if the text is not a document
  function TextWithMode(s: string, m: Mode, norm: Normal, markup: Markup): Option<string> {
    match markup.parse(s)
    case None => None
    case Some(t) => Some(markup.show(s, ModeAdded(t, m, norm)))
  }

  function TextWithModes(s: string, count: nat, norm: Normal, markup: Markup): Option<string>
    requires count <= 3
  {
    if count == 0 then Some(s)
    else
      match TextWithModes(s, count - 1, norm, markup)
      case None => None
      case Some(u) => TextWithMode(u, SUPPORTED[count - 1], norm, markup)
  }

  // The Vita resolutions put in front; printed only if they were not.
  function Reordered(s: string, norm: Normal, markup: Markup): Option<string> {
    match markup.parse(s)
    case None => None
    case Some(t) =>
      var u := Normalized(t, norm);
      var rs := Resolutions(u);
      if u.resolutions.None? || exists k | 0 <= k < 3 :: FirstOf(rs, SUPPORTED[k]) == |rs| then None
      else if InFront(rs) then Some(s)
      else Some(markup.show(s, u.(resolutions := Some(Preferred(rs)))))
  }

  // AddVitaCompatibilityModesToConfiguration
  function Provisioned(s: string, norm: Normal, markup: Markup): Option<string> {
    match TextWithModes(s, 3, norm, markup)
    case None => None
    case Some(u) => Reordered(u, norm, markup)
  }

  // ----- the tree that the text holds afterwards -----

  function Added(t: Tree, count: nat, norm: Normal): Tree
    requires count <= 3
  {
    if count == 0 then t else ModeAdded(Added(t, count - 1, norm), SUPPORTED[count - 1], norm)
  }

  lemma {:induction false} AddedAll(t: Tree, norm: Normal)
    ensures Added(t, 3, norm) == VitaModesAdded(t, norm)
  {
    hide ModeAdded;
    assert Added(t, 0, norm) == t;
    assert Added(t, 1, norm) == ModeAdded(t, SUPPORTED[0], norm);
    assert Added(t, 2, norm) == ModeAdded(Added(t, 1, norm), SUPPORTED[1], norm);
  }

  lemma {:induction false} WithModesTree(s: string, t: Tree, count: nat, norm: Normal, markup: Markup)
    requires Stable(markup) && markup.parse(s) == Some(t) && count <= 3
    ensures var u := TextWithModes(s, count, norm, markup);
            && u.Some? && markup.parse(u.value) == Some(Added(t, count, norm))
            && (count > 0 ==> markup.show(u.value, Added(t, count, norm)) == u.value)
  {
    hide ModeAdded;
    if count > 0 { WithModesTree(s, t, count - 1, norm, markup); }
  }

  lemma {:induction false} AddedIsNormal(t: Tree, norm: Normal)
    requires Ready(norm)
    ensures var u := VitaModesAdded(t, norm);
            && Normalized(u, norm) == u && u.resolutions.Some?
            && (forall k | 0 <= k < 3 :: FirstOf(Resolutions(u), SUPPORTED[k]) < |Resolutions(u)|)
  {
    VitaModes.VitaModesAddedShape(t, norm);
    NormalizedIsStable(VitaModesAdded(t, norm), norm);
    hide VitaModesAdded, IsNormal, Normalized, Gives, GlobalRates, NormalizedAll, FirstOf;
    var u := VitaModesAdded(t, norm);
    forall k | 0 <= k < 3 ensures FirstOf(Resolutions(u), SUPPORTED[k]) < |Resolutions(u)| {
      assert k == 0 || k == 1 || k == 2;
    }
  }

  lemma {:induction false} InFrontIsPreferred(rs: seq<Resolution>)
    requires forall k | 0 <= k < 3 :: FirstOf(rs, SUPPORTED[k]) < |rs|
    ensures InFront(rs) ==> Preferred(rs) == rs
  {
    hide FirstOf, Preferred;
    if InFront(rs) {
      assert FirstOf(rs, SUPPORTED[2]) < |rs|;
      forall k | 0 <= k < 3 ensures FirstOf(rs, SUPPORTED[k]) == k {
        assert k == 0 || k == 1 || k == 2;
      }
      VitaModes.PreferredInOrder(rs);
    }
  }

  // Provisioning a text provisions the tree it holds, and the text is as printed.
  lemma {:induction false} ProvisionedTree(s: string, t: Tree, norm: Normal, markup: Markup)
    requires Stable(markup) && Ready(norm) && markup.parse(s) == Some(t)
    ensures var p := Provisioned(s, norm, markup);
            && p.Some? && markup.parse(p.value) == Some(VitaFirst(t, norm))
            && markup.show(p.value, VitaFirst(t, norm)) == p.value
  {
    WithModesTree(s, t, 3, norm, markup);
    AddedAll(t, norm);
    AddedIsNormal(t, norm);
    var u := VitaModesAdded(t, norm);
    InFrontIsPreferred(Resolutions(u));
    VitaModes.VitaFirstSteps(t, norm);
    hide VitaModesAdded, Normalized, FirstOf, Preferred, InFront, TextWithModes, Added, VitaFirst;
    assert u.(resolutions := Some(Resolutions(u))) == u;
  }

  // A text that holds no document cannot be provisioned.
  lemma {:induction false} NothingProvisioned(s: string, norm: Normal, markup: Markup)
    requires markup.parse(s) == None
    ensures Provisioned(s, norm, markup) == None
  {
    assert TextWithModes(s, 1, norm, markup) == None;
    FailureStays(s, 1, 3, norm, markup);
  }

  // Provisioning leaves exactly the texts alone that hold a provisioned tree as it is
  // printed. A provisioned document in any other layout is written once more.
  lemma {:induction false} UnchangedIffPrinted(s: string, t: Tree, norm: Normal, markup: Markup)
    requires Stable(markup) && Ready(norm) && markup.parse(s) == Some(t)
    ensures Provisioned(s, norm, markup) == Some(s) <==> VitaFirst(t, norm) == t && markup.show(s, t) == s
  {
    ProvisionedTree(s, t, norm, markup);
    hide VitaFirst, Provisioned;
    if VitaFirst(t, norm) == t && markup.show(s, t) == s { PrintedStays(s, t, norm, markup); }
  }

  lemma {:induction false} PrintedStays(s: string, t: Tree, norm: Normal, markup: Markup)
    requires Stable(markup) && Ready(norm) && markup.parse(s) == Some(t)
    requires VitaFirst(t, norm) == t && markup.show(s, t) == s
    ensures Provisioned(s, norm, markup) == Some(s)
  {
    hide VitaFirst, ModeAdded, Normalized, IsNormal, FirstOf, Resolutions, Preferred;
    VitaModes.ProvisionedGainsNothing(t, norm);
    assert TextWithModes(s, 1, norm, markup) == Some(s);
    assert TextWithModes(s, 2, norm, markup) == Some(s);
    assert TextWithModes(s, 3, norm, markup) == Some(s);
  }

  // Provisioning a provisioned text changes nothing.
  lemma {:induction false} ProvisionedAgain(s: string, norm: Normal, markup: Markup)
    requires Stable(markup) && Ready(norm) && markup.parse(s).Some?
    ensures var p := Provisioned(s, norm, markup);
            && p.Some? && Provisioned(p.value, norm, markup) == p
            && markup.parse(p.value).Some? && HasVitaModes(markup.parse(p.value).value, norm)
  {
    hide VitaFirst, HasVitaModes, Provisioned, Stable, Ready;
    var t := markup.parse(s).value;
    ProvisionedTree(s, t, norm, markup);
    VitaModes.AddingVitaModesIsIdempotent(t, norm);
    VitaModes.VitaModesAreAccepted(t, norm);
    UnchangedIffPrinted(Provisioned(s, norm, markup).value, VitaFirst(t, norm), norm, markup);
  }

  lemma {:induction false} FailureStays(s: string, k: nat, n: nat, norm: Normal, markup: Markup)
    requires k <= n <= 3 && TextWithModes(s, k, norm, markup) == None
    ensures TextWithModes(s, n, norm, markup) == None
  {
    hide TextWithMode;
    if k < n { FailureStays(s, k, n - 1, norm, markup); }
  }

  // ----- the file -----

  class ConfigurationFile {
    const norm: Normal
    const markup: Markup
    var text: string
    // A native-mode verification record is present.
    var verified: bool

    constructor (norm: Normal, markup: Markup, text: string, verified: bool)
      ensures this.norm == norm && this.markup == markup && this.text == text && this.verified == verified
    {
      this.norm, this.markup, this.text, this.verified := norm, markup, text, verified;
    }

    method AddModeToText(s: string, m: Mode) returns (updated: Option<string>)
      requires Sound(norm)
      ensures updated == TextWithMode(s, m, norm, markup)
    {
      hide ModeAdded;
      var t := markup.parse(s);
      if t.None? { return None; }
      var document := new Document(norm, t.value);
      document.AddMode(m);
      return Some(markup.show(s, document.Contents()));
    }

    method AddVitaModes(s: string) returns (updated: Option<string>)
      requires Ready(norm)
      ensures updated == Provisioned(s, norm, markup)
    {
      hide TextWithMode, Reordered, Sound;
      var u := s;
      for k := 0 to 3
        invariant TextWithModes(s, k, norm, markup) == Some(u)
      {
        var added := AddModeToText(u, SUPPORTED[k]);
        if added.None? {
          FailureStays(s, k + 1, 3, norm, markup);
          return None;
        }
        u := added.value;
      }
      updated := Reorder(u);
    }

    method Reorder(s: string) returns (updated: Option<string>)
      requires Ready(norm)
      ensures updated == Reordered(s, norm, markup)
    {
      hide Normalized, FirstOf, Preferred;
      var t := markup.parse(s);
      if t.None? { return None; }
      var document := new Document(norm, t.value);
      document.NormalizeRefreshRates();
      if document.resolutions.None? { return None; }
      var rs := document.resolutions.value;
      for k := 0 to |SUPPORTED|
        invariant forall j | 0 <= j < k :: FirstOf(rs, SUPPORTED[j]) < |rs|
      {
        if FirstOf(rs, SUPPORTED[k]) == |rs| { return None; }
      }
      var moved := document.MoveVitaModesToFront();
      return Some(if moved then markup.show(s, document.Contents()) else s);
    }

    // EnsureVitaCompatibilityModes: whether the file was rewritten, or none if it holds no
    // document
    method EnsureVitaModes() returns (changed: Option<bool>)
      requires Ready(norm) && Stable(markup)
      modifies this
      ensures changed.None? <==> markup.parse(old(text)).None?
      ensures changed.None? ==> text == old(text) && verified == old(verified)
      ensures changed.Some? ==>
                && Provisioned(old(text), norm, markup) == Some(text) && (changed.value <==> text != old(text))
                && (verified <==> old(verified) && !changed.value)
                && markup.parse(text) == Some(VitaFirst(markup.parse(old(text)).value, norm))
    {
      hide VitaFirst, Provisioned, Stable, Ready;
      var original := text;
      var updated := AddVitaModes(original);
      match markup.parse(original) {
        case None => NothingProvisioned(original, norm, markup);
        case Some(t) => ProvisionedTree(original, t, norm, markup);
      }
      if updated.None? { return None; }
      if updated.value == original { return Some(false); }
      verified := false;
      text := updated.value;
      return Some(true);
    }

    // The second call has nothing to do and keeps the verification record.
    method EnsureVitaModesTwice() returns (changed: Option<bool>, again: Option<bool>)
      requires Ready(norm) && Stable(markup) && markup.parse(text).Some?
      modifies this
      ensures changed.Some? && again == Some(false)
      ensures markup.parse(text).Some? && HasVitaModes(markup.parse(text).value, norm)
      ensures verified <==> old(verified) && !changed.value
    {
      hide VitaFirst, HasVitaModes, Provisioned, Stable, Ready;
      ProvisionedAgain(text, norm, markup);
      changed := EnsureVitaModes();
      again := EnsureVitaModes();
    }
  }
}
