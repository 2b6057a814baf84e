/**
 * The OAuth client's screen state, which its handlers take by `&mut`: the
 * screen on show, the compose form and the reading view. The file defining
 * `ScreenState` and `Screen` is not part of this model; their shape is read
 * off the handlers' uses.
 */
module EcttApp {
  import opened Ui
  import EcttCompose
  import EcttReading

  datatype Screen = Main | Compose | Reading

  class ScreenState {
    var screen: Screen
    const compose: EcttCompose.ComposeFields
    const reading: EcttReading.ReadingWidget

    constructor (screen: Screen, compose: EcttCompose.ComposeFields, reading: EcttReading.ReadingWidget)
      ensures this.screen == screen && this.compose == compose && this.reading == reading
    {
      this.screen := screen;
      this.compose := compose;
      this.reading := reading;
    }

    /**
     * `handle_compose`: the form takes the key, and Ctrl+S or Esc go back to
     * Main; the reading view is untouched.
     */
    method HandleCompose(event: Event)
      requires EcttCompose.Handles(compose.Current(), event)
      modifies this, compose
      ensures var (form, toMain) := EcttCompose.ComposeStep(old(compose.Current()), event);
        compose.Current() == form && screen == (if toMain then Main else old(screen))
    {
      var toMain := compose.Handle(event);
      if toMain {
        screen := Main;
      }
    }

    /** `handle_reading`: the view takes the key, and Esc goes back to Main; the form is untouched. */
    method HandleReading(event: Event)
      requires EcttReading.Handles(reading.scroll, event)
      modifies this, reading
      ensures var (scroll, toMain) := EcttReading.ReadingStep(old(reading.scroll), event);
        reading.scroll == scroll && screen == (if toMain then Main else old(screen))
      ensures reading.from == old(reading.from) && reading.cc == old(reading.cc) && reading.bcc == old(reading.bcc)
      ensures reading.body == old(reading.body)
    {
      var toMain := reading.Handle(event);
      if toMain {
        screen := Main;
      }
    }
  }
}
