/** The reaction button on a post (`src/components/UserTriggerReaction.tsx`):
    its label, its look, whether it is disabled and what a click does. */
module ReactionButton {
  import opened Wrappers

  /** What the button shows and does: the label, the `variant`, the
      `disabled` attribute, and the pin id a click passes to `onReaction`,
      or `None` when a click does nothing. */
  datatype View = View(caption: string, variant: string, disabled: bool, click: Option<string>)

  const LabelBusiness := "事業者はリアクション不可"
  const LabelReacted := "リアクション済み"
  const LabelReact := "リアクション"

  /** The button for these props. A business user is never offered a
      reaction, whatever `isReacted` is; the button is disabled exactly when
      `isDisabled` is set or the user is a business; a click reports the pin
      exactly when neither holds; the filled look marks a post already
      reacted to. */
  function Render(pinId: string, isReacted: bool, userRole: string, isDisabled: bool): (r: View)
    ensures userRole == "business" ==> r.caption == LabelBusiness
    ensures userRole != "business" ==> r.caption == (if isReacted then LabelReacted else LabelReact)
    ensures r.disabled <==> isDisabled || userRole == "business"
    ensures r.click.Some? <==> !isDisabled && userRole != "business"
    ensures r.click.Some? ==> r.click.value == pinId
    ensures r.variant == "default" <==> isReacted
    ensures !isReacted ==> r.variant == "outline"
  {
    var isBusiness := userRole == "business";
    View(if isBusiness then LabelBusiness else if isReacted then LabelReacted else LabelReact,
         if isReacted then "default" else "outline",
         isDisabled || isBusiness,
         if isDisabled || isBusiness then None else Some(pinId))
  }

  /** The click guard and the `disabled` attribute agree: an enabled button
      always reacts, a disabled one never does. */
  lemma ClickIffEnabled(pinId: string, isReacted: bool, userRole: string, isDisabled: bool)
    ensures Render(pinId, isReacted, userRole, isDisabled).click == (if Render(pinId, isReacted, userRole, isDisabled).disabled then None else Some(pinId))
  {
  }

  /** For a business user the label and the click do not depend on whether
      the post was reacted to. */
  lemma BusinessIgnoresReacted(pinId: string, userRole: string, isDisabled: bool)
    requires userRole == "business"
    ensures Render(pinId, true, userRole, isDisabled).caption == Render(pinId, false, userRole, isDisabled).caption
    ensures Render(pinId, true, userRole, isDisabled).click.None?
  {
  }
}
