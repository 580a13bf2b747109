/**
 * Heading paths: `_get_heading_path` climbs from an element through the
 * parent references of its heading ancestors, collecting their stripped
 * texts from the outermost down, and stops at a level-1 heading, at a
 * reference that does not name a heading, or at a missing reference. The
 * climb has no bound of its own (a heading whose reference leads back to
 * itself is climbed forever), so the model gives it `fuel` steps and answers
 * `None` when they run out.
 */
module HeadingPaths {
  import opened Wrappers
  import opened Text
  import opened Paragraphs
  import opened Layouts
  import opened DocTree
  import opened Sections

  /** The text a heading adds to the path: its stripped text, when not empty. */
  function PathEntry(p: Paragraph): seq<string> {
    var t := Strip(ParagraphText(p, "full"));
    if t != "" then [t] else []
  }

  /** The path above an element whose parent reference is `ref`, within `fuel` steps. */
  function PathFrom(layouts: seq<Layout>, index: ElementIndex, ref: Option<string>, fuel: nat): Option<seq<string>>
    decreases fuel
  {
    if !Truthy(ref) then Some([])
    else if fuel == 0 then None
    else match Lookup(layouts, index, ref)
      case Some(ParagraphNode(p)) =>
        if !IsSet(p.isHeading) then Some([])
        else if p.headingLevel == Some(1) then Some(PathEntry(p))
        else (match PathFrom(layouts, index, p.parentRefId, fuel - 1)
              case None => None
              case Some(above) => Some(above + PathEntry(p)))
      case _ => Some([])
  }

  /** The parent reference the climb starts from; an absent element has none. */
  function StartRef(e: Element): Option<string> {
    match e
    case ParagraphElement(p) => p.parentRefId
    case TableElement(t) => t.parentRefId
    case Absent => None
  }

  /** A path found with some fuel is found, the same, with more. */
  lemma {:induction false} PathFuelMonotone(layouts: seq<Layout>, index: ElementIndex, ref: Option<string>, f: nat, g: nat)
    requires f <= g && PathFrom(layouts, index, ref, f).Some?
    ensures PathFrom(layouts, index, ref, g) == PathFrom(layouts, index, ref, f)
    decreases f
  {
    if Truthy(ref) && f > 0 {
      match Lookup(layouts, index, ref)
      case Some(ParagraphNode(p)) =>
        if IsSet(p.isHeading) && p.headingLevel != Some(1) {
          PathFuelMonotone(layouts, index, p.parentRefId, f - 1, g - 1);
        }
      case _ =>
    }
  }

  /** Every entry of a path is a non-empty text, one per heading climbed, so no more entries than steps. */
  lemma {:induction false} PathEntries(layouts: seq<Layout>, index: ElementIndex, ref: Option<string>, fuel: nat)
    requires PathFrom(layouts, index, ref, fuel).Some?
    ensures var path := PathFrom(layouts, index, ref, fuel).value;
      |path| <= fuel && forall i :: 0 <= i < |path| ==> path[i] != ""
    decreases fuel
  {
    if Truthy(ref) && fuel > 0 {
      match Lookup(layouts, index, ref)
      case Some(ParagraphNode(p)) =>
        if IsSet(p.isHeading) && p.headingLevel != Some(1) {
          PathEntries(layouts, index, p.parentRefId, fuel - 1);
        }
      case _ =>
    }
  }

  /** A heading below level 1 whose reference names itself is climbed forever: no fuel is enough. */
  lemma {:induction false} SelfReferenceNeverEnds(layouts: seq<Layout>, index: ElementIndex, ref: Option<string>, p: Paragraph, fuel: nat)
    requires Truthy(ref) && Lookup(layouts, index, ref) == Some(ParagraphNode(p))
    requires IsSet(p.isHeading) && p.headingLevel != Some(1) && p.parentRefId == ref
    ensures PathFrom(layouts, index, ref, fuel) == None
    decreases fuel
  {
    if fuel > 0 {
      SelfReferenceNeverEnds(layouts, index, ref, p, fuel - 1);
    }
  }

  /** A level-1 heading parent ends the path with its own entry. */
  lemma TopHeadingEndsPath(layouts: seq<Layout>, index: ElementIndex, ref: Option<string>, p: Paragraph, fuel: nat)
    requires Truthy(ref) && fuel > 0 && Lookup(layouts, index, ref) == Some(ParagraphNode(p))
    requires IsSet(p.isHeading) && p.headingLevel == Some(1)
    ensures PathFrom(layouts, index, ref, fuel) == Some(PathEntry(p))
  {
  }
}
