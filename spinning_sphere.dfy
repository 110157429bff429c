/** The colour state of the loading sphere (src/components/SpinningSphere.jsx),
    chosen from the status line by a prioritised, case-insensitive substring
    test. */
module SpinningSphere {
  import opened JsText

  datatype SphereState = Idle | Initiating | Downloading | Ready | Error

  /** `COLORS`: the target colour of each state. */
  predicate IsHexDigit(c: char) {
    '0' <= c <= '9' || 'a' <= c <= 'f' || 'A' <= c <= 'F'
  }

  function Color(st: SphereState): (r: string)
    ensures |r| == 7 && r[0] == '#'
    ensures forall i :: 1 <= i < |r| ==> IsHexDigit(r[i])
  {
    match st
    case Idle => "#C8A2C8"
    case Initiating => "#ff5f1f"
    case Downloading => "#ffd700"
    case Ready => "#9F70FD"
    case Error => "#ff0000"
  }

  /** The five states are told apart by colour. */
  lemma ColorsDistinct(a: SphereState, b: SphereState)
    requires Color(a) == Color(b)
    ensures a == b
  {
  }

  predicate Mentions(status: string, word: string) {
    Contains(ToLower(status), word)
  }

  /** The first test that the lower-cased status passes decides the state;
      "error" beats everything, then "ready"/"online", then "downloading",
      then "connecting"/"authenticating"; anything else is idle. */
  function Classify(status: string): (r: SphereState)
    ensures r == Error <==> Mentions(status, "error")
    ensures r == Ready <==> !Mentions(status, "error") && (Mentions(status, "ready") || Mentions(status, "online"))
    ensures r == Downloading <==>
      !Mentions(status, "error") && !Mentions(status, "ready") && !Mentions(status, "online") &&
      Mentions(status, "downloading")
    ensures r == Initiating <==>
      !Mentions(status, "error") && !Mentions(status, "ready") && !Mentions(status, "online") &&
      !Mentions(status, "downloading") &&
      (Mentions(status, "connecting") || Mentions(status, "authenticating"))
    ensures r == Idle <==>
      !Mentions(status, "error") && !Mentions(status, "ready") && !Mentions(status, "online") &&
      !Mentions(status, "downloading") && !Mentions(status, "connecting") && !Mentions(status, "authenticating")
  {
    if Mentions(status, "error") then Error
    else if Mentions(status, "ready") || Mentions(status, "online") then Ready
    else if Mentions(status, "downloading") then Downloading
    else if Mentions(status, "connecting") || Mentions(status, "authenticating") then Initiating
    else Idle
  }

  lemma ToLowerIdempotent(s: string)
    ensures ToLower(ToLower(s)) == ToLower(s)
  {
  }

  /** The classification ignores case: a status and its lower-cased form
      get the same colour. */
  lemma ClassifyIgnoresCase(status: string)
    ensures Classify(ToLower(status)) == Classify(status)
  {
    ToLowerIdempotent(status);
  }

  /** A status that mentions an error is red whatever else it says. */
  lemma ErrorWins(status: string, other: string)
    requires Mentions(status, "error")
    ensures Classify(status + other) == Error
  {
    var s, t := ToLower(status), ToLower(status + other);
    var i :| 0 <= i <= |s| - |"error"| && OccursAt(s, "error", i);
    assert forall k :: 0 <= k < |s| ==> t[k] == s[k] by {
      forall k | 0 <= k < |s| ensures t[k] == s[k] { assert (status + other)[k] == status[k]; }
    }
    assert t[i..i + 5] == s[i..i + 5];
    assert OccursAt(t, "error", i);
  }
}
