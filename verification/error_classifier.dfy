/** `handleApiError` (src/utils/api.js): the message of a thrown error is
    matched against a fixed list of markers; the first marker it contains
    picks the category, and the category picks the alert's title. */
module ErrorClassifier {
  import opened Text
  import Dispatcher

  const NetworkFailedMarker: string := "Network request failed"
  const JsonMarker: string := "JSON"
  const NotFoundMarker: string := "Error HTTP 404"
  const HttpMarker: string := "Error HTTP"
  const TimeoutMarker: string := "agotado"
  const FetchFailedMarker: string := "Failed to fetch"

  const ConnectionTitle: string := "Error de conexión"
  const ResponseTitle: string := "Error en respuesta"
  const ServerTitle: string := "Error del servidor"

  datatype Category =
    | NetworkUnreachable
    | BadResponse
    | EndpointMissing
    | ServerError
    | TimedOut
    | FetchFailed
    | Unclassified

  /** The branch of the cascade a message takes: the first marker, in
      priority order, that the message contains. */
  function Classify(message: string): (c: Category)
    ensures c == NetworkUnreachable <==> Contains(message, NetworkFailedMarker)
    ensures c == BadResponse <==>
              !Contains(message, NetworkFailedMarker) && Contains(message, JsonMarker)
    ensures c == EndpointMissing <==>
              !Contains(message, NetworkFailedMarker) && !Contains(message, JsonMarker)
              && Contains(message, NotFoundMarker)
    ensures c == ServerError <==>
              !Contains(message, NetworkFailedMarker) && !Contains(message, JsonMarker)
              && !Contains(message, NotFoundMarker) && Contains(message, HttpMarker)
    ensures c == TimedOut <==>
              !Contains(message, NetworkFailedMarker) && !Contains(message, JsonMarker)
              && !Contains(message, HttpMarker) && Contains(message, TimeoutMarker)
    ensures c == FetchFailed <==>
              !Contains(message, NetworkFailedMarker) && !Contains(message, JsonMarker)
              && !Contains(message, HttpMarker) && !Contains(message, TimeoutMarker)
              && Contains(message, FetchFailedMarker)
  {
    HttpMarkerInNotFound(message);
    if Contains(message, NetworkFailedMarker) then NetworkUnreachable
    else if Contains(message, JsonMarker) then BadResponse
    else if Contains(message, NotFoundMarker) then EndpointMissing
    else if Contains(message, HttpMarker) then ServerError
    else if Contains(message, TimeoutMarker) then TimedOut
    else if Contains(message, FetchFailedMarker) then FetchFailed
    else Unclassified
  }

  /** A message holding the 404 marker holds the general HTTP marker too. */
  lemma HttpMarkerInNotFound(message: string)
    ensures Contains(message, NotFoundMarker) ==> Contains(message, HttpMarker)
  {
    if Contains(message, NotFoundMarker) {
      var i :| 0 <= i <= |message| && OccursAt(message, NotFoundMarker, i);
      assert message[i..i + |HttpMarker|] == NotFoundMarker[..|HttpMarker|];
      ContainsAt(message, HttpMarker, i);
    }
  }

  /** The alert title of each category: server errors for the two HTTP
      branches, a response error for JSON, and the connection error default
      for everything else. */
  function Title(c: Category): (title: string)
    ensures title == ServerTitle <==> c == EndpointMissing || c == ServerError
    ensures title == ResponseTitle <==> c == BadResponse
    ensures title == ConnectionTitle <==> !(c == EndpointMissing || c == ServerError || c == BadResponse)
  {
    match c
    case BadResponse => ResponseTitle
    case EndpointMissing => ServerTitle
    case ServerError => ServerTitle
    case _ => ConnectionTitle
  }

  /** The alert `handleApiError` shows; its advice text is not modelled. */
  datatype Alert = Alert(title: string, category: Category)

  /** The alert for a thrown message: a server error for any HTTP status
      message (404 included), a response error for a JSON failure, and the
      connection error for a network failure and everything else -- the
      network marker winning over all others. */
  function HandleApiError(message: string): (a: Alert)
    ensures a.category == Classify(message)
    ensures a.title == ServerTitle <==>
              !Contains(message, NetworkFailedMarker) && !Contains(message, JsonMarker)
              && Contains(message, HttpMarker)
    ensures a.title == ResponseTitle <==>
              !Contains(message, NetworkFailedMarker) && Contains(message, JsonMarker)
    ensures a.title == ConnectionTitle <==>
              Contains(message, NetworkFailedMarker)
              || (!Contains(message, JsonMarker) && !Contains(message, HttpMarker))
  {
    HttpMarkerInNotFound(message);
    var c := Classify(message);
    Alert(Title(c), c)
  }

  // ---------------------------------------------------------------------
  // How the dispatcher's own errors are classified. Each absence proof
  // names one character of the marker that the message never holds.

  /** The timeout error lands in the timeout branch. */
  lemma TimeoutIsTimedOut()
    ensures Classify(Dispatcher.TimeoutMessage) == TimedOut
    ensures HandleApiError(Dispatcher.TimeoutMessage).title == ConnectionTitle
  {
    var m := Dispatcher.TimeoutMessage;
    TimeoutMessageAvoids();
    NotContainedWithoutChar(m, NetworkFailedMarker, 0);
    NotContainedWithoutChar(m, JsonMarker, 0);
    NotContainedWithoutChar(m, HttpMarker, 0);
    assert m == "Tiempo de espera " + TimeoutMarker;
    assert m[17..] == TimeoutMarker;
    ContainsAt(m, TimeoutMarker, 17);
  }

  lemma TimeoutMessageAvoids()
    ensures var m := Dispatcher.TimeoutMessage;
            forall i :: 0 <= i < |m| ==> m[i] !in "NJE"
  {
  }

  /** The error thrown when every host failed without a message of its own
      holds no marker, so it gets the default connection-error title; "ag"
      (the start of "agotado") never occurs in it. */
  lemma NoServerIsUnclassified()
    ensures Classify(Dispatcher.NoServerMessage) == Unclassified
    ensures HandleApiError(Dispatcher.NoServerMessage).title == ConnectionTitle
  {
    var m := Dispatcher.NoServerMessage;
    NoServerMessageAvoids();
    NotContainedWithoutChar(m, NetworkFailedMarker, 3);
    NotContainedWithoutChar(m, JsonMarker, 0);
    NotContainedWithoutChar(m, HttpMarker, 0);
    HttpMarkerInNotFound(m);
    NotContainedWithoutPair(m, TimeoutMarker, 0);
    NotContainedWithoutChar(m, FetchFailedMarker, 0);
  }

  lemma NoServerMessageAvoids()
    ensures var m := Dispatcher.NoServerMessage;
            && (forall i :: 0 <= i < |m| ==> m[i] !in "wJEF")
            && (forall i :: 0 <= i < |m| - 1 ==> !(m[i] == 'a' && m[i + 1] == 'g'))
  {
  }

  /** The unparsable-body error contains no "JSON", so it falls through every
      marker and gets the default connection-error title. */
  lemma InvalidFormatIsUnclassified()
    ensures Classify(Dispatcher.InvalidFormatMessage) == Unclassified
    ensures HandleApiError(Dispatcher.InvalidFormatMessage).title == ConnectionTitle
  {
    var m := Dispatcher.InvalidFormatMessage;
    InvalidFormatMessageAvoids();
    NotContainedWithoutChar(m, NetworkFailedMarker, 0);
    NotContainedWithoutChar(m, JsonMarker, 0);
    NotContainedWithoutChar(m, HttpMarker, 0);
    HttpMarkerInNotFound(m);
    NotContainedWithoutChar(m, TimeoutMarker, 1);
    NotContainedWithoutChar(m, FetchFailedMarker, 13);
  }

  lemma InvalidFormatMessageAvoids()
    ensures var m := Dispatcher.InvalidFormatMessage;
            forall i :: 0 <= i < |m| ==> m[i] !in "NJEgc"
  {
  }

  /** An HTTP error is a server error, and a 404 the missing-endpoint one --
      unless the body text the server sent contains an earlier marker (or
      the 404 marker itself), in which case the text decides. */
  lemma HttpErrorClassification(status: nat, text: string)
    requires 100 <= status <= 999
    ensures var c := Classify(Dispatcher.HttpErrorMessage(status, text));
            && (Contains(text, NetworkFailedMarker) ==> c == NetworkUnreachable)
            && (!Contains(text, NetworkFailedMarker) && Contains(text, JsonMarker) ==> c == BadResponse)
            && (!Contains(text, NetworkFailedMarker) && !Contains(text, JsonMarker) ==>
                  c == (if status == 404 || Contains(text, NotFoundMarker) then EndpointMissing else ServerError))
  {
    HttpErrorEarlyMarkers(status, text);
    HttpErrorNotFound(status, text);
  }

  /** Markers starting with 'N' or 'J' can only occur inside the body text. */
  lemma HttpErrorEarlyMarkers(status: nat, text: string)
    ensures var m := Dispatcher.HttpErrorMessage(status, text);
            && (Contains(m, NetworkFailedMarker) <==> Contains(text, NetworkFailedMarker))
            && (Contains(m, JsonMarker) <==> Contains(text, JsonMarker))
  {
    var d := Decimal(status);
    var lead := "Error HTTP ";
    assert Dispatcher.HttpErrorMessage(status, text) == lead + (d + (": " + text));
    ContainsAfterPrefix(lead, d + (": " + text), NetworkFailedMarker);
    ContainsAfterPrefix(d, ": " + text, NetworkFailedMarker);
    ContainsAfterPrefix(": ", text, NetworkFailedMarker);
    ContainsAfterPrefix(lead, d + (": " + text), JsonMarker);
    ContainsAfterPrefix(d, ": " + text, JsonMarker);
    ContainsAfterPrefix(": ", text, JsonMarker);
  }

  /** The 404 marker occurs at the start exactly when the status is 404, and
      elsewhere only inside the body text; the general HTTP marker always
      starts the message. */
  lemma HttpErrorNotFound(status: nat, text: string)
    requires 100 <= status <= 999
    ensures var m := Dispatcher.HttpErrorMessage(status, text);
            && (Contains(m, NotFoundMarker) <==> status == 404 || Contains(text, NotFoundMarker))
            && Contains(m, HttpMarker)
  {
    var d := Decimal(status);
    var m := Dispatcher.HttpErrorMessage(status, text);
    var lead := "Error HTTP ";
    assert m == lead + (d + (": " + text));
    ThreeDigits(status);
    ContainsUncons(m, NotFoundMarker);
    assert m[..|NotFoundMarker|] == lead + d;
    assert m[1..] == "rror HTTP " + (d + (": " + text));
    ContainsAfterPrefix("rror HTTP ", d + (": " + text), NotFoundMarker);
    ContainsAfterPrefix(d, ": " + text, NotFoundMarker);
    ContainsAfterPrefix(": ", text, NotFoundMarker);
    assert NotFoundMarker == lead + "404";
    if lead + d == NotFoundMarker {
      assert d == (lead + d)[|lead|..] == "404";
    }
    assert m[..|HttpMarker|] == HttpMarker;
    ContainsAt(m, HttpMarker, 0);
  }
}
