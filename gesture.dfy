/** The gesture state machine driven by global mouse-button events
    (on_click in every copy): a middle press toggles the gesture, a left or
    right press cancels it, releases are ignored. */
module Gesture {
  import opened Variants
  import opened Config

  /** The buttons the listener reports; OtherButton stands for any further
      button a platform may deliver. */
  datatype Button = LeftButton | RightButton | MiddleButton | OtherButton

  /** Notifications to the overlay. */
  datatype Feedback = Show | ShowAt(x: real, y: real) | Hide

  /** The two gesture fields of the configuration object. */
  datatype GestureState = GestureState(active: bool, origin: Point)

  /** The show notification of a variant for a press at (x, y). */
  function ShowFeedback(v: Variant, x: real, y: real): Feedback
  {
    if v.showAtPoint then ShowAt(x, y) else Show
  }

  /** One button event. Returns the new gesture state and the overlay
      notification it emits, if any. */
  function Click(v: Variant, g: GestureState, x: real, y: real, button: Button, pressed: bool)
    : (r: (GestureState, Option<Feedback>))
    // a middle press toggles; activation records the press point and shows the overlay
    ensures pressed && button == MiddleButton ==> r.0.active == !g.active
    ensures pressed && button == MiddleButton && !g.active ==>
              r.0.origin == Point(x, y) && r.1 == Some(ShowFeedback(v, x, y))
    ensures pressed && button == MiddleButton && g.active ==>
              r.0.origin == g.origin && r.1 == Some(Hide)
    // a left or right press cancels, and notifies only if there was a gesture
    ensures pressed && (button == LeftButton || button == RightButton) ==>
              r.0 == GestureState(false, g.origin) && r.1 == (if g.active then Some(Hide) else None)
    // releases and other buttons change nothing
    ensures !pressed || button == OtherButton ==> r == (g, None)
    // a notification is emitted exactly when the gesture flips, Hide exactly when it ends
    ensures r.1.Some? <==> r.0.active != g.active
    ensures r.1 == Some(Hide) <==> g.active && !r.0.active
    // the origin moves only when a gesture starts
    ensures r.0.origin != g.origin ==> !g.active && r.0.active
  {
    if button == MiddleButton then
      if pressed then
        if !g.active then (GestureState(true, Point(x, y)), Some(ShowFeedback(v, x, y)))
        else (GestureState(false, g.origin), Some(Hide))
      else (g, None)
    else if pressed && (button == LeftButton || button == RightButton) then
      if g.active then (GestureState(false, g.origin), Some(Hide)) else (g, None)
    else (g, None)
  }

  /** on_click: applies a button event to the shared configuration object,
      touching only its gesture fields, and returns the notification. */
  method OnClick(cfg: GlobalConfig, v: Variant, x: real, y: real, button: Button, pressed: bool)
    returns (feedback: Option<Feedback>)
    modifies cfg`active, cfg`origin
    ensures (GestureState(cfg.active, cfg.origin), feedback)
            == Click(v, GestureState(old(cfg.active), old(cfg.origin)), x, y, button, pressed)
    ensures cfg.Snapshot() == old(cfg.Snapshot())
  {
    feedback := None;
    if button == MiddleButton {
      if pressed {
        cfg.active := !cfg.active;
        if cfg.active {
          cfg.origin := Point(x, y);
          feedback := Some(ShowFeedback(v, x, y));
        } else {
          feedback := Some(Hide);
        }
      }
    } else if pressed && (button == LeftButton || button == RightButton) {
      if cfg.active {
        cfg.active := false;
        feedback := Some(Hide);
      }
    }
  }
}
