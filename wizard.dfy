/**
 * The admin product wizard: five steps (0 identity, 1 images, 2 stock and
 * description, 3 category and size, 4 price and review) moved through by the
 * buttons each step shows, a draft edited along the way, and the commit guard.
 */
module Wizard {
  import opened Wrappers
  import opened Shop

  const LastStep := 4

  /**
   * The navigation buttons: "next" on steps 0 to 3, "back" on steps 1 to 3, and
   * on step 4 two buttons ("delete" and "edit") that both go back to step 0.
   * Commit is not a move: it is guarded separately.
   */
  datatype Action = Forward | Back | Discard | Edit

  /** The step a button leads to, or None when the current step shows no such button. */
  function Move(step: int, a: Action): (r: Option<int>)
    ensures r.Some? ==> 0 <= step <= LastStep && 0 <= r.value <= LastStep
    ensures r.Some? ==> r.value == step + 1 || r.value == step - 1 || (step == LastStep && r.value == 0)
  {
    match a
    case Forward => if 0 <= step < LastStep then Some(step + 1) else None
    case Back => if 1 <= step < LastStep then Some(step - 1) else None
    case Discard => if step == LastStep then Some(0) else None
    case Edit => if step == LastStep then Some(0) else None
  }

  /** Pressing a sequence of buttons; None as soon as one is not on screen. */
  function Run(step: int, actions: seq<Action>): Option<int>
    decreases |actions|
  {
    if actions == [] then Some(step)
    else match Move(step, actions[0])
      case None => None
      case Some(s) => Run(s, actions[1..])
  }

  /** Whatever buttons are pressed, the wizard stays on one of its five steps. */
  lemma {:induction false} RunStaysInRange(step: int, actions: seq<Action>)
    requires 0 <= step <= LastStep
    ensures Run(step, actions).Some? ==> 0 <= Run(step, actions).value <= LastStep
    decreases |actions|
  {
    if actions != [] {
      var m := Move(step, actions[0]);
      if m.Some? {
        RunStaysInRange(m.value, actions[1..]);
      }
    }
  }

  /** No jumps forward: `n` presses take the wizard at most `n` steps further. */
  lemma {:induction false} RunAdvancesAtMostOne(step: int, actions: seq<Action>)
    requires 0 <= step <= LastStep
    ensures Run(step, actions).Some? ==> Run(step, actions).value <= step + |actions|
    decreases |actions|
  {
    if actions != [] {
      var m := Move(step, actions[0]);
      if m.Some? {
        RunAdvancesAtMostOne(m.value, actions[1..]);
      }
    }
  }

  /** "Back" undoes "next" on the steps that have both buttons. */
  lemma BackUndoesForward(step: int)
    requires 0 <= step < LastStep - 1
    ensures Move(step, Forward) == Some(step + 1) && Move(step + 1, Back) == Some(step)
  {
  }

  /** The image field: Enter appends a non-empty URL and ignores an empty one. */
  function AddImage(images: seq<string>, url: string): (r: seq<string>)
    ensures url != "" ==> |r| == |images| + 1 && r[..|images|] == images && r[|images|] == url
    ensures url == "" ==> r == images
  {
    if url != "" then images + [url] else images
  }

  /** An image's remove button: the list without position `i`, the others keeping their order. */
  function RemoveImageAt(images: seq<string>, i: int): (r: seq<string>)
    ensures 0 <= i < |images| ==> |r| == |images| - 1
    ensures 0 <= i < |images| ==> forall k :: 0 <= k < |r| ==> r[k] == if k < i then images[k] else images[k + 1]
    ensures !(0 <= i < |images|) ==> r == images
  {
    if 0 <= i < |images| then images[..i] + images[i + 1..] else images
  }

  /** Removing the image just added restores the list. */
  lemma RemoveAddedImage(images: seq<string>, url: string)
    requires url != ""
    ensures RemoveImageAt(AddImage(images, url), |images|) == images
  {
    assert (images + [url])[..|images|] == images;
  }

  /** The commit guard: a non-empty id and title and a non-zero price; a price of 0 is refused. */
  predicate CommitAllowed(d: Product)
  {
    d.id != "" && d.title != "" && d.price != 0
  }
}
