/**
 * Two small rules of the browser front end: the light/dark colour-mode
 * switch, and the value a text input hands to the story.
 */
module Session {
  import Saves

  /** The mode after one press of the switch: "dark" and "light" trade
    * places; any other value is left as it is. */
  function Toggled(mode: string): (r: string)
    ensures mode == "dark" ==> r == "light"
    ensures mode == "light" ==> r == "dark"
    ensures mode != "dark" && mode != "light" ==> r == mode
  {
    if mode == "dark" then "light" else if mode == "light" then "dark" else mode
  }

  /** Pressing the switch twice returns to the start. */
  lemma {:induction false} ToggleTwice(mode: string)
    ensures Toggled(Toggled(mode)) == mode
  {
  }

  /** The switch keeps the mode within {"light", "dark"} once it is there. */
  lemma {:induction false} ToggleStaysKnown(mode: string)
    requires mode == "light" || mode == "dark"
    ensures Toggled(mode) == "light" || Toggled(mode) == "dark"
    ensures Toggled(mode) != mode
  {
  }

  /** The module-level colour mode, "light" at start. */
  class ColorMode {
    var mode: string

    constructor()
      ensures mode == "light"
    {
      mode := "light";
    }

    /** `toggle_mode`: switch the mode and record it in the stored game
      * state, which is returned. */
    method Toggle(state: Saves.GameState) returns (stored: Saves.GameState)
      modifies this
      ensures mode == Toggled(old(mode))
      ensures stored == state.(colorMode := mode)
    {
      if mode == "dark" {
        mode := "light";
      } else if mode == "light" {
        mode := "dark";
      }
      stored := state.(colorMode := mode);
    }
  }

  /** What the text input's button passes on: the typed value, or the
    * default value when nothing was typed. */
  function SubmittedValue(value: string, default: string): (r: string)
    ensures r == "" <==> value == "" && default == ""
    ensures value != "" ==> r == value
    ensures value == "" ==> r == default
  {
    if value == "" then default else value
  }

  /** Submitting what was submitted changes nothing. */
  lemma {:induction false} SubmitIdempotent(value: string, default: string)
    ensures SubmittedValue(SubmittedValue(value, default), default) == SubmittedValue(value, default)
  {
  }
}
