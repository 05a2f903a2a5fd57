/** What the three Cognito custom-authentication triggers share: the session history that
    Cognito carries from one challenge to the next, and the `response` part of the event,
    which each trigger updates in place and Cognito reads back. */
module TriggerEvent {
  import opened Wrappers
  import opened Json

  const CustomChallenge := "CUSTOM_CHALLENGE"

  /** One entry of `event["request"]["session"]`: an earlier challenge, whether it was
      answered correctly, and the metadata Create attached to it. */
  datatype ChallengeRecord = ChallengeRecord(
    challengeName: string,
    challengeResult: bool,
    challengeMetadata: Option<string>)

  /** The latest attempt, `session[-1]`. */
  function Last(session: seq<ChallengeRecord>): (r: ChallengeRecord)
    requires session != []
    ensures r in session
  {
    session[|session| - 1]
  }

  /** `event["response"]`: the keys Cognito put there, then the ones a trigger sets. */
  class EventResponse {
    var fields: map<string, Json>

    constructor(initial: map<string, Json>)
      ensures fields == initial
    {
      fields := initial;
    }

    /** `response[key] = value` */
    method Set(key: string, value: Json)
      modifies this
      ensures fields == old(fields)[key := value]
    {
      fields := fields[key := value];
    }
  }
}
