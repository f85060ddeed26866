/**
 * The backend status card (src/components/HealthCheck.tsx): one button
 * queries `/health`; the card shows the last status as a coloured badge
 * with a label, and pops a toast for each outcome.
 */
module HealthCheck {
  import opened ApiTypes

  /** The badge's four colour schemes. */
  datatype BadgeColour = Green | Red | Yellow | Gray

  /** The toast each settled check pops. */
  datatype Toast = Operational | Unhealthy | ConnectionFailed

  /**
   * The badge colour: green for `ok`, red for `error`, yellow for any other
   * non-empty status and gray for no status or the empty string (the two
   * values JavaScript treats as false here).
   */
  function Colour(status: Option<string>): (c: BadgeColour)
    ensures c == Green <==> status == Some("ok")
    ensures c == Red <==> status == Some("error")
    ensures c == Gray <==> status == None || status == Some("")
  {
    if status == Some("ok") then Green
    else if status == Some("error") then Red
    else if status.Some? && status.value != "" then Yellow
    else Gray
  }

  /** The badge text, chosen by the same three tests as the colour. */
  function Label(status: Option<string>): (text: string)
    ensures Colour(status) == Green ==> text == "Online"
    ensures Colour(status) == Red ==> text == "Error"
    ensures Colour(status) == Yellow ==> text == status.value
    ensures Colour(status) == Gray ==> text == "Unknown"
  {
    if status == Some("ok") then "Online"
    else if status == Some("error") then "Error"
    else if status.Some? && status.value != "" then status.value
    else "Unknown"
  }

  /**
   * The label alone does not tell the state apart: a backend answering the
   * status `Online`, `Error` or `Unknown` shows the same text as `ok`, `error`
   * or no status, and only the colour differs.
   */
  lemma LabelNeedsColour()
    ensures Label(Some("Online")) == Label(Some("ok")) && Colour(Some("Online")) == Yellow
    ensures Label(Some("Error")) == Label(Some("error")) && Colour(Some("Error")) == Yellow
    ensures Label(Some("Unknown")) == Label(None) && Colour(Some("Unknown")) == Yellow
  {
    assert "Online" != "ok" && "Online" != "error" && "Online" != "";
    assert "Error" != "ok" && "Error" != "error" && "Error" != "";
    assert "Unknown" != "ok" && "Unknown" != "error" && "Unknown" != "";
  }

  /**
   * Colour and label together identify the status, except that no status
   * and the empty status both show a gray `Unknown`.
   */
  lemma BadgeIdentifiesStatus(s: Option<string>, t: Option<string>)
    requires Colour(s) == Colour(t) && Label(s) == Label(t)
    ensures s == t || (Colour(s) == Gray && Colour(t) == Gray)
  {
  }

  /** The status the card keeps once a check settles: the backend's own, or `error` when the call failed. */
  function SettledStatus(outcome: Outcome<HealthResponse>): (status: Option<string>)
    ensures status.Some?
    ensures outcome.Success? ==> status.value == outcome.value.status
  {
    match outcome
    case Success(response) => Some(response.status)
    case Failure => Some("error")
  }

  /** The toast a settled check pops: only the status `ok` counts as operational. */
  function ToastFor(outcome: Outcome<HealthResponse>): (t: Toast)
    ensures t == ConnectionFailed <==> outcome.Failure?
    ensures t == Operational <==> outcome == Success(HealthResponse("ok"))
  {
    match outcome
    case Success(response) => if response.status == "ok" then Operational else Unhealthy
    case Failure => ConnectionFailed
  }

  /**
   * A backend that answers `error` and a backend that cannot be reached
   * leave the same red `Error` badge; only the toast tells them apart.
   */
  lemma BackendErrorLooksLikeFailure()
    ensures SettledStatus(Success(HealthResponse("error"))) == SettledStatus(Failure)
    ensures Colour(SettledStatus(Failure)) == Red && Label(SettledStatus(Failure)) == "Error"
    ensures ToastFor(Success(HealthResponse("error"))) != ToastFor(Failure)
  {
  }

  /**
   * A settled check never shows gray unless the backend answered the empty
   * status: a failure is red, and `ok` green.
   */
  lemma SettledBadge(outcome: Outcome<HealthResponse>)
    ensures Colour(SettledStatus(outcome)) == Gray <==> outcome == Success(HealthResponse(""))
    ensures outcome.Failure? ==> Colour(SettledStatus(outcome)) == Red
    ensures ToastFor(outcome) == Operational <==> Colour(SettledStatus(outcome)) == Green
  {
  }

  /**
   * The card's state. `requests` lists the backend calls it has made and
   * `toasts` the toasts it has popped, oldest first.
   */
  class Monitor {
    var status: Option<string>
    var isLoading: bool
    var requests: seq<Request>
    var toasts: seq<Toast>

    constructor ()
      ensures status == None && !isLoading
      ensures requests == [] && toasts == []
    {
      status := None;
      isLoading := false;
      requests := [];
      toasts := [];
    }

    /** The button's `disabled` expression; the handler itself has no guard. */
    predicate ButtonDisabled()
      reads this`isLoading
    {
      isLoading
    }

    /** `handleHealthCheck` up to its `await`: the old status is cleared and the call made. */
    method StartCheck()
      modifies this`isLoading, this`status, this`requests
      ensures isLoading && status == None
      ensures requests == old(requests) + [HealthRequest]
    {
      isLoading := true;
      status := None;
      requests := requests + [HealthRequest];
    }

    /** `handleHealthCheck` after its `await`: the status settles, a toast pops and loading ends. */
    method FinishCheck(outcome: Outcome<HealthResponse>)
      modifies this`isLoading, this`status, this`toasts
      ensures !isLoading
      ensures status == SettledStatus(outcome)
      ensures toasts == old(toasts) + [ToastFor(outcome)]
    {
      if outcome.Success? {
        status := Some(outcome.value.status);
        if outcome.value.status == "ok" {
          toasts := toasts + [Operational];
        } else {
          toasts := toasts + [Unhealthy];
        }
      } else {
        status := Some("error");
        toasts := toasts + [ConnectionFailed];
      }
      isLoading := false;
    }

    /** `handleHealthCheck` as one step against the backend's `outcome`. */
    method HandleHealthCheck(outcome: Outcome<HealthResponse>)
      modifies this`isLoading, this`status, this`requests, this`toasts
      ensures !isLoading && status == SettledStatus(outcome)
      ensures requests == old(requests) + [HealthRequest]
      ensures toasts == old(toasts) + [ToastFor(outcome)]
    {
      StartCheck();
      FinishCheck(outcome);
    }
  }

  /**
   * A client of the card: while a check is pending the button is disabled
   * and the badge is a gray `Unknown`, even after an earlier check settled.
   */
  method PendingCheckShowsUnknown(first: Outcome<HealthResponse>)
  {
    var m := new Monitor();
    m.HandleHealthCheck(first);
    assert !m.ButtonDisabled();
    m.StartCheck();
    assert m.ButtonDisabled();
    assert Colour(m.status) == Gray && Label(m.status) == "Unknown";
    assert m.requests == [HealthRequest, HealthRequest];
  }
}
