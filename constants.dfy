/** Project-wide constants (zoom_api_helper/constants.py). */
module Constants {

  /** Keyword arguments accepted for the Create Meeting API (`CREATE_MEETING_KWARGS`). */
  const CreateMeetingKwargs: set<string> := {
    "host_id", "host_email",
    "agenda", "start_time", "template_id", "password", "timezone", "topic",
    "tracking_fields", "duration", "recurrence", "default_password",
    "pre_schedule", "settings", "schedule_for", "type"
  }

  /**
   * `s` lists every element of `names` exactly once: one possible iteration
   * order of a Python set of strings, which depends on string hashing.
   */
  ghost predicate Enumerates(s: seq<string>, names: set<string>) {
    && (forall i, j :: 0 <= i < j < |s| ==> s[i] != s[j])
    && (forall k :: k in s <==> k in names)
  }
}
