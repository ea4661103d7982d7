/**
 * `WelcomeViewModel` on both platforms: a greeting chosen by the hour of
 * the local clock, shown for 1.5 seconds before the view model asks to be
 * navigated away. The delay is a timer and is left to the caller, who
 * invokes the navigation handler; the hour is passed in.
 */
module Welcome {

  /** An hour of the 24-hour local clock. */
  type Hour = h: int | 0 <= h < 24

  const Morning: string := "Good morning."
  const Afternoon: string := "Good afternoon."
  const Evening: string := "Good evening."
  const Night: string := "Good night."

  /**
   * `BuildGreeting` / `buildGreeting()`: [5, 12) morning, [12, 17)
   * afternoon, [17, 21) evening, and night for the rest, which wraps round
   * midnight.
   */
  function Greeting(hour: Hour): (g: string)
    ensures g == Morning <==> 5 <= hour < 12
    ensures g == Afternoon <==> 12 <= hour < 17
    ensures g == Evening <==> 17 <= hour < 21
    ensures g == Night <==> hour < 5 || 21 <= hour
  {
    if 5 <= hour < 12 then Morning
    else if 12 <= hour < 17 then Afternoon
    else if 17 <= hour < 21 then Evening
    else Night
  }

  /** The greeting changes only at 05:00, 12:00, 17:00 and 21:00. */
  lemma GreetingChangesAtBoundaries(hour: Hour)
    requires hour < 23
    ensures Greeting(hour) != Greeting(hour + 1) <==> hour + 1 in {5, 12, 17, 21}
  {
  }

  /** Each of the four greetings is given for some hour, and only those four are. */
  lemma FourGreetings(hour: Hour)
    ensures Greeting(hour) in {Morning, Afternoon, Evening, Night}
    ensures Greeting(0) == Night && Greeting(5) == Morning && Greeting(12) == Afternoon && Greeting(17) == Evening
  {
  }

  class WelcomeViewModel {
    /** Set once, when the view model is built. */
    var greeting: string

    constructor (hour: Hour)
      ensures greeting == Greeting(hour)
    {
      greeting := Greeting(hour);
    }
  }
}
