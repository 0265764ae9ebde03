/**
 * `formatInactivityMessage`: the SMS sent to an emergency contact. Date formatting
 * (`toLocaleString`) and number printing are locale and floating-point machinery, so they are
 * the functions of a `Formatters` value.
 */
module Twilio {
  import opened Wrappers
  import opened Json
  import LocationDto

  /** `dateText` renders a millisecond timestamp as `toLocaleString("en-US", …)` does;
      `numberText` prints a number as a template literal does. */
  datatype Formatters = Formatters(dateText: int -> string, numberText: real -> string)

  /** A value inside a template literal, as `String(v)` renders it. */
  function Interpolate(v: Value, fmt: Formatters): string
  {
    match v
    case Undefined => "undefined"
    case Null => "null"
    case Bool(b) => if b then "true" else "false"
    case Num(n) => fmt.numberText(n)
    case Str(s) => s
    case Composite => "[object Object]"
  }

  /** The fixed wording of the message, in the order it appears. Lemmas below hold for any
      wording; `MessageWording` is the one the system sends. */
  datatype Wording = Wording(intro: string, inactivity: string, recordedOn: string,
                             advice: string, services: string, signature: string)

  const MessageWording := Wording(
    "\n\nWe wanted to inform you that ",
    " hasn't shown any activity in our system for over 24 hours.",
    " Their last activity was recorded on ",
    "\n\nPlease take a moment to check on their well-being. You're receiving this message because you're listed as their emergency contact.\n\nIf you've already confirmed their safety, you can disregard this message. If you have any concerns, please ",
    " or contact emergency services if necessary.\n\n",
    "This is an automated message from the Alive monitoring system.")

  /** `timeString`: the formatted time, or "an unknown time" without a timestamp. */
  function TimeText(timestamp: Option<int>, fmt: Formatters): string
  {
    if timestamp.Some? then fmt.dateText(timestamp.value) else "an unknown time"
  }

  /** `locationString`: one sentence with the coordinates, or nothing. */
  function LocationText(location: Option<LocationDto.Coords>, fmt: Formatters): string
  {
    if location.Some? then LocationSentence(location.value, fmt) else ""
  }

  function LocationSentence(c: LocationDto.Coords, fmt: Formatters): string
  {
    "Their last known location was near " + fmt.numberText(c.lat) + ", " + fmt.numberText(c.lng) + "."
  }

  /** The greeting line. */
  function Greeting(recipientText: string): string
  {
    "Dear " + recipientText + ","
  }

  /** The sentence naming the user, with the time of the last activity. */
  function InactivityReport(w: Wording, userName: string, timeText: string): string
  {
    userName + w.inactivity + w.recordedOn + timeText + "."
  }

  /** The advice to contact the user. */
  function ReachOut(userName: string): string
  {
    "reach out to " + userName + " directly"
  }

  /** The message laid out with wording `w`: the greeting, the report, the location sentence,
      the advice and the signature. */
  function Compose(w: Wording, userName: string, timeText: string, locationText: string,
                   recipientText: string): string
  {
    Greeting(recipientText) + w.intro + (InactivityReport(w, userName, timeText) + " ")
      + locationText + (w.advice + ReachOut(userName) + w.services) + w.signature
  }

  /** `formatInactivityMessage`. */
  function FormatInactivityMessage(userName: string, timestamp: Option<int>,
                                   location: Option<LocationDto.Coords>, recipientName: Value,
                                   fmt: Formatters): string
  {
    Compose(MessageWording, userName, TimeText(timestamp, fmt), LocationText(location, fmt),
      Interpolate(recipientName, fmt))
  }

  /** `w` occurs in `r` at index `i`. */
  predicate OccursAt(r: string, w: string, i: nat)
  {
    i + |w| <= |r| && r[i..i + |w|] == w
  }

  lemma OccursInMiddle(a: string, w: string, b: string)
    ensures OccursAt(a + w + b, w, |a|)
  {
    assert (a + w + b)[|a|..|a| + |w|] == w;
  }

  /** The message starts with "Dear <recipient name>," and ends with the signature line. */
  lemma {:induction false} GreetingAndSignature(w: Wording, userName: string, timeText: string,
                                                locationText: string, recipientText: string)
    ensures var r := Compose(w, userName, timeText, locationText, recipientText);
      Greeting(recipientText) <= r && |w.signature| <= |r| && r[|r| - |w.signature|..] == w.signature
  {
    var r := Compose(w, userName, timeText, locationText, recipientText);
    var g := Greeting(recipientText);
    var middle := w.intro + (InactivityReport(w, userName, timeText) + " ")
      + locationText + (w.advice + ReachOut(userName) + w.services);
    assert r == g + middle + w.signature;
    OccursInMiddle([], g, middle + w.signature);
    OccursInMiddle(g + middle, w.signature, []);
  }

  /** The message names the user in the inactivity report and says when the last activity was
      recorded. */
  lemma {:induction false} ReportStated(w: Wording, userName: string, timeText: string,
                                        locationText: string, recipientText: string)
    ensures OccursAt(Compose(w, userName, timeText, locationText, recipientText),
      InactivityReport(w, userName, timeText), |Greeting(recipientText) + w.intro|)
  {
    var report := InactivityReport(w, userName, timeText);
    var tail := " " + locationText + (w.advice + ReachOut(userName) + w.services) + w.signature;
    assert Compose(w, userName, timeText, locationText, recipientText)
      == Greeting(recipientText) + w.intro + report + tail;
    OccursInMiddle(Greeting(recipientText) + w.intro, report, tail);
  }

  /** The closing advice names the user again. */
  lemma {:induction false} AdviceNamesUser(w: Wording, userName: string, timeText: string,
                                           locationText: string, recipientText: string)
    returns (i: nat)
    ensures OccursAt(Compose(w, userName, timeText, locationText, recipientText), ReachOut(userName), i)
  {
    var lead := Greeting(recipientText) + w.intro + (InactivityReport(w, userName, timeText) + " ")
      + locationText + w.advice;
    assert Compose(w, userName, timeText, locationText, recipientText)
      == lead + ReachOut(userName) + (w.services + w.signature);
    OccursInMiddle(lead, ReachOut(userName), w.services + w.signature);
    i := |lead|;
  }

  /** A location only inserts its sentence, at the end of the report; no location adds no text. */
  lemma {:induction false} LocationOnlyAddsSentence(w: Wording, userName: string, timeText: string,
                                                    sentence: string, recipientText: string)
    ensures var without := Compose(w, userName, timeText, "", recipientText);
      var k := |Greeting(recipientText) + w.intro + (InactivityReport(w, userName, timeText) + " ")|;
      k <= |without| &&
      Compose(w, userName, timeText, sentence, recipientText) == without[..k] + sentence + without[k..]
  {
    var o := Greeting(recipientText) + w.intro + (InactivityReport(w, userName, timeText) + " ");
    var c := (w.advice + ReachOut(userName) + w.services) + w.signature;
    var without := Compose(w, userName, timeText, "", recipientText);
    assert without == o + c;
    assert without[..|o|] == o && without[|o|..] == c;
  }

  /** The report of the message sent names the user, says "over 24 hours" whatever threshold
      the check used, and reads "an unknown time" when there is no timestamp. */
  lemma SentReport(userName: string, timestamp: Option<int>,
                   location: Option<LocationDto.Coords>, recipientName: Value, fmt: Formatters)
    ensures InactivityReport(MessageWording, userName, TimeText(timestamp, fmt))
      == userName + " hasn't shown any activity in our system for over 24 hours."
         + " Their last activity was recorded on "
         + (if timestamp.None? then "an unknown time" else fmt.dateText(timestamp.value)) + "."
  {
  }
}
