/**
 * The two Slack Web API calls: `users.profile.set`, whose success is decided
 * by a literal substring test on the raw reply, and `users.profile.get`. Only
 * the status fields of the profile records are kept.
 */
module SlackStatus {
  import opened Wrappers
  import opened Text

  const SetUrl: string := "https://slack.com/api/users.profile.set"
  const GetUrl: string := "https://slack.com/api/users.profile.get"

  /** The text whose presence in the reply counts as success: no space after the colon. */
  const OkMarker: string := "\"ok\":true"

  /** The `profile` object sent to `users.profile.set`. */
  datatype Profile = Profile(statusText: string, statusEmoji: string, statusExpiration: int)

  datatype ProfileRequestBody = ProfileRequestBody(profile: Profile)

  /** The status part of the profile `users.profile.get` returns. */
  datatype ProfileDetails = ProfileDetails(statusText: string, statusEmoji: string, statusExpiration: int)

  /** The decoded reply of `users.profile.get`, with the status getters that read through to `profile`. */
  datatype UserProfile = UserProfile(ok: bool, profile: ProfileDetails)
  {
    function StatusText(): string { profile.statusText }
    function StatusEmoji(): string { profile.statusEmoji }
    function StatusExpiration(): int { profile.statusExpiration }
  }

  datatype Request =
    | Post(url: string, body: ProfileRequestBody)
    | Get(url: string)

  /**
   * What one `setStatus` call did: the request it sent, if any, the Boolean it
   * returned, and how many times it invoked the expiration callback.
   */
  datatype StatusCall = StatusCall(sent: Option<Request>, succeeded: bool, expirationCalls: nat)

  /**
   * `setStatus(text, emoji, dryRun, expirationTime)`. `reply` is the raw body
   * the server answers with; it is ignored on a dry run, which sends nothing,
   * never calls the expiration callback, and reports success.
   */
  function SetStatus(text: string, emoji: string, dryRun: bool, expirationTime: () -> int, reply: string): (c: StatusCall)
    ensures dryRun ==> c == StatusCall(None, true, 0)
    ensures !dryRun ==> c.expirationCalls == 1
    ensures !dryRun ==> c.sent == Some(Post(SetUrl, ProfileRequestBody(Profile(text, emoji, expirationTime()))))
    ensures !dryRun ==> (c.succeeded <==> exists i :: OccursAt(reply, OkMarker, i))
  {
    if dryRun then StatusCall(None, true, 0)
    else
      var expiration := expirationTime();
      StatusCall(Some(Post(SetUrl, ProfileRequestBody(Profile(text, emoji, expiration)))), Contains(reply, OkMarker), 1)
  }

  /** `currentStatus()`: a GET of the profile; the reply is decoded into a `UserProfile`. */
  function CurrentStatusRequest(): (r: Request)
    ensures r.Get? && r.url == GetUrl
  {
    Get(GetUrl)
  }

  /** A compact success reply is reported as success. */
  lemma CompactOkReplySucceeds(text: string, emoji: string, expirationTime: () -> int)
    ensures SetStatus(text, emoji, false, expirationTime, "{\"ok\":true,\"profile\":{}}").succeeded
  {
    assert "{\"ok\":true,\"profile\":{}}" == "{" + OkMarker + ",\"profile\":{}}";
    MarkerAnywhereSucceeds(text, emoji, expirationTime, "{", ",\"profile\":{}}");
  }

  /** An error reply is reported as failure. */
  lemma ErrorReplyFails(text: string, emoji: string, expirationTime: () -> int)
    ensures !SetStatus(text, emoji, false, expirationTime, "{\"ok\":false}").succeeded
  {
    var reply := "{\"ok\":false}";
    forall i | 0 <= i <= |reply| - |OkMarker|
      ensures !OccursAt(reply, OkMarker, i)
    {
      assert reply[i + 5] != OkMarker[5];
    }
  }

  /**
   * The test is textual: a successful reply written with a space after the
   * colon is reported as failure.
   */
  lemma SpacedOkReplyFails(text: string, emoji: string, expirationTime: () -> int)
    ensures !SetStatus(text, emoji, false, expirationTime, "{\"ok\": true}").succeeded
  {
    var reply := "{\"ok\": true}";
    forall i | 0 <= i <= |reply| - |OkMarker|
      ensures !OccursAt(reply, OkMarker, i)
    {
      if i == 1 {
        assert reply[i + 5] != OkMarker[5];
      } else {
        assert reply[i + 1] != OkMarker[1] || reply[i] != OkMarker[0];
      }
    }
  }

  /** The marker anywhere in the reply is success, whatever text surrounds it. */
  lemma MarkerAnywhereSucceeds(text: string, emoji: string, expirationTime: () -> int, before: string, after: string)
    ensures SetStatus(text, emoji, false, expirationTime, before + OkMarker + after).succeeded
  {
    var reply := before + OkMarker + after;
    assert reply[|before|..|before| + |OkMarker|] == OkMarker;
    assert OccursAt(reply, OkMarker, |before|);
  }

  /** A dry run sends nothing and succeeds, whatever the server would have replied. */
  lemma DryRunIgnoresReply(text: string, emoji: string, expirationTime: () -> int, reply1: string, reply2: string)
    ensures SetStatus(text, emoji, true, expirationTime, reply1) == SetStatus(text, emoji, true, expirationTime, reply2)
    ensures SetStatus(text, emoji, true, expirationTime, reply1).sent.None?
  {
  }
}
