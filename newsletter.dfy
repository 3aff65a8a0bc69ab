/**
 * The newsletter endpoint (functions/api/newsletter.js): validate the address,
 * then `INSERT OR IGNORE` it into the `newsletter` table, a set of addresses.
 */
module Newsletter {
  import opened Wrappers
  import opened Text
  import opened Http

  /** `!email || !email.includes('@')` is false. */
  predicate ValidEmail(email: Option<string>): (b: bool)
    ensures b <==> email.Some? && '@' in email.value
  {
    if email.None? then false
    else
      IncludesIffOccurs(email.value, "@");
      assert '@' in email.value ==> exists i :: OccursAt(email.value, "@", i) by {
        if '@' in email.value {
          var i :| 0 <= i < |email.value| && email.value[i] == '@';
          assert email.value[i..i + 1] == "@";
          assert OccursAt(email.value, "@", i);
        }
      }
      assert (exists i :: OccursAt(email.value, "@", i)) ==> '@' in email.value by {
        if exists i :: OccursAt(email.value, "@", i) {
          var i :| OccursAt(email.value, "@", i);
          assert email.value[i..i + 1][0] == email.value[i];
        }
      }
      email.value != "" && Includes(email.value, "@")
  }

  /**
   * The response and the new table for one POST: 400 for an invalid address,
   * 500 with the driver's message when the insert throws, otherwise success
   * with the address in the table (`INSERT OR IGNORE` keeps a set).
   */
  function Subscribe(emails: set<string>, email: Option<string>, failure: Option<string>): (r: (Response, set<string>))
    ensures emails <= r.1
    ensures r.0.status == 200 <==> ValidEmail(email) && failure.None?
    ensures r.0.status == 200 ==> r.0.body == SuccessBody && r.1 == emails + {email.value}
    ensures r.0.status != 200 ==> r.1 == emails
    ensures !ValidEmail(email) ==> r.0 == Response(400, ErrorBody("Invalid email"))
    ensures ValidEmail(email) && failure.Some? ==> r.0 == Response(500, ErrorBody(failure.value))
  {
    if !ValidEmail(email) then (Response(400, ErrorBody("Invalid email")), emails)
    else match failure
      case Some(message) => (Response(500, ErrorBody(message)), emails)
      case None => (Json(SuccessBody), emails + {email.value})
  }

  /** Subscribing the same address twice answers the same and leaves the table as after the first time. */
  lemma SubscribeIdempotent(emails: set<string>, email: Option<string>)
    ensures Subscribe(Subscribe(emails, email, None).1, email, None) == Subscribe(emails, email, None)
  {
  }

  /** The `newsletter` table. */
  class MailingList {
    var emails: set<string>

    constructor ()
      ensures emails == {}
    {
      emails := {};
    }

    /**
     * `onRequestPost`. `failure` is the message of the error the database
     * driver throws, if it throws; a failed insert leaves the table as it was.
     */
    method OnRequestPost(email: Option<string>, failure: Option<string>) returns (resp: Response)
      modifies this
      ensures (resp, emails) == Subscribe(old(emails), email, failure)
    {
      if email.None? || email.value == "" || !Includes(email.value, "@") {
        return Response(400, ErrorBody("Invalid email"));
      }
      match failure
      case Some(message) =>
        resp := Response(500, ErrorBody(message));
      case None =>
        emails := emails + {email.value};
        resp := Json(SuccessBody);
    }
  }
}
