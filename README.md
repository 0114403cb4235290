# Open edX API glue, course overviews and discussion models in Dafny

This project models three small pieces of decision logic from the Open edX platform, with the
Django, Django REST framework and MongoEngine calls around them replaced by plain inputs.

- **API view utilities** (`view_utils.dfy`, module `ViewUtils`). `RetrievePatchAPIView`
  validates a JSON merge patch (RFC 7396) against a serializer. It collects one error entry per
  unknown field, per read-only field and per value the serializer rejects. The update is applied
  only when no entry was collected. The module also covers `DeveloperErrorViewMixin`, which shapes
  error responses and maps exceptions to status codes, the allowed / 204 / 404 branch of
  `view_course_access`, and the attributes `view_auth_classes` sets. The serializer is two inputs:
  its field table (name to `read_only`) and the `errors` map that `is_valid()` leaves behind.
- **Course overview attributes** (`course_overviews.dfy`, module `CourseOverviews`, with
  `base32.dfy` and `text.dfy`). These are the derived properties of `CourseOverviewDescriptor`:
  - the group-access fallback and the user-partition search;
  - display names with escaped angle brackets, and the display number and organization fallbacks;
  - the certificate rule `may_certify` / `has_ended`, with the current time as a parameter;
  - the default start date test and the empty end-date text;
  - `clean_id`, the base 32 encoding of section 6 of RFC 4648 with a replaceable padding
    character. A decoder is modelled as its partner, and the round trip is proved.
- **Discussion models** (`comment_models.dfy`, module `CommentModels`). These are:
  - the anonymity projection of a post's author;
  - `Thread.clear_endorsements`, as a method over a sequence of `Comment` objects that changes
    only their endorsement fields;
  - the write-once sort key `Comment.set_sk`;
  - `User.to_dict`, its keys and its thread and comment counts, with every database query
    replaced by a filter over the documents of a `Store`;
  - the vote and activity stubs;
  - `Subscription.to_dict`.

`wrappers.dfy` holds the `Option` and `Result` types. Python exceptions appear as `Failure`
values, and `ugettext` is the identity.

## Model

| member | source | states |
|---|---|---|
| ViewUtils.Report | openedx/core/lib/api/view_utils.py:153-173 | the report is the unknown and read-only entries of the patch keys, overwritten by the serializer-error entries |
| ViewUtils.ReportKeys | openedx/core/lib/api/view_utils.py:153-175 | the report's keys are exactly the unknown keys, the read-only keys and the serializer-error keys, all of them patch keys |
| ViewUtils.ReportAt | openedx/core/lib/api/view_utils.py:153-173 | per patch key: a serializer error gives "Value '<v>' is not valid for field '<k>': <error>" / "This value is invalid." whatever the field table says; otherwise an unknown key gets "This field is not present on this resource", a read-only key "This field is not editable", and a writable key no entry |
| ViewUtils.ReportEmptyIff | openedx/core/lib/api/view_utils.py:149-175 | the report is empty iff the serializer has no errors and every patch key names a writable field; so an empty patch with a valid serializer gives an empty report |
| ViewUtils.ValidatePatch | openedx/core/lib/api/view_utils.py:145-175 | both passes visit every key without a short cut and the result equals the report; a serializer error on a key outside the patch raises KeyError for such a key, and only then |
| ViewUtils.RecordValueErrors | openedx/core/lib/api/view_utils.py:165-173 | the second pass turns the first pass's entries into the full report, or raises KeyError for a serializer error on a key outside the patch, exactly when there is one |
| ViewUtils.TwoViolationsReported | openedx/core/lib/api/view_utils.py:153-173 | a read-only `id` and a rejected `name` in one patch are both reported, each with its own message |
| ViewUtils.FieldErrorsJson | openedx/core/lib/api/view_utils.py:155-158 | the JSON object has exactly the report's keys, each mapped to its developer and user messages |
| ViewUtils.HandlePatch | openedx/core/lib/api/view_utils.py:136-143 | `partial_update` is reached iff the report is empty; otherwise the answer is 400 with `{"field_errors": report}`; exactly when a key with serializer errors is missing from the patch, the KeyError for such a key propagates |
| ViewUtils.MakeErrorResponse | openedx/core/lib/api/view_utils.py:33-37 | the response has the given status and a body holding exactly `developer_message` |
| ViewUtils.ValidationErrorResponse | openedx/core/lib/api/view_utils.py:39-56 | status 400; with a message dict, the first non-field message becomes `developer_message` and each other field maps to its first message under `field_errors`, which is present iff another field remains; without one, the first message; IndexError exactly when a needed list is empty |
| ViewUtils.MakeValidationErrorResponse | openedx/core/lib/api/view_utils.py:39-56 | the copy / pop / fill steps produce exactly `ValidationErrorResponse` |
| ViewUtils.HandleException | openedx/core/lib/api/view_utils.py:58-66 | an API exception keeps its status and detail, Http404 gives 404 "Not found.", a validation error gives the 400 response above, and any other exception is raised again unchanged |
| ViewUtils.ViewCourseAccess | openedx/core/lib/api/view_utils.py:84-101 | the wrapped view runs with the course iff access is granted; 204 with the prerequisite message iff access is denied, the milestone check is on and milestones are unfulfilled; Http404 is re-raised iff access is denied otherwise |
| ViewUtils.ViewAuthClasses | openedx/core/lib/api/view_utils.py:106-122 | the target's authentication classes become OAuth2 then session; its permission classes become IsAuthenticatedOrDebug, followed by IsUserInUrl exactly when `is_user`; the same object is returned |
| CourseOverviews.MergedGroupAccess | openedx/core/djangoapps/content/course_overviews/models.py:150-152 | the group access map when there is one, the empty map when it is None |
| CourseOverviews.GetUserPartition | openedx/core/djangoapps/content/course_overviews/models.py:154-163 | a None partition list raises TypeError, and only it does; otherwise returns the first partition with the id, and fails iff no partition has the id, with NoSuchUserPartitionError "could not find a UserPartition with ID [<id>]" |
| CourseOverviews.EscapeAngleBrackets | openedx/core/djangoapps/content/course_overviews/models.py:186 | each '<' becomes "&lt;" and then each '>' becomes "&gt;"; the lemmas below state what that guarantees |
| CourseOverviews.EscapeRemovesBrackets | openedx/core/djangoapps/content/course_overviews/models.py:186 | the escaped text holds no '<' and no '>' |
| CourseOverviews.EscapeKeepsPlainText | openedx/core/djangoapps/content/course_overviews/models.py:186 | text without angle brackets is returned unchanged |
| CourseOverviews.EscapeLength | openedx/core/djangoapps/content/course_overviews/models.py:186 | each angle bracket lengthens the text by exactly three characters |
| CourseOverviews.DisplayNameWithDefault | openedx/core/djangoapps/content/course_overviews/models.py:173-186 | the display name, or without one the URL name with '_' turned into ' ', with its angle brackets escaped; its guarantees are in `DisplayNameWithDefaultSpec` |
| CourseOverviews.DisplayNameWithDefaultSpec | openedx/core/djangoapps/content/course_overviews/models.py:173-186 | the display name holds no angle bracket; a bracket-free display name is used as it is; without a display name, the URL name is used with '_' turned into ' ', so no '_' remains |
| CourseOverviews.HasEnded | openedx/core/djangoapps/content/course_overviews/models.py:198-206 | false without an end date, otherwise true iff now is past the end |
| CourseOverviews.HasStarted | openedx/core/djangoapps/content/course_overviews/models.py:208-209 | true iff now is past the start; a missing start raises TypeError |
| CourseOverviews.MayCertify | openedx/core/djangoapps/content/course_overviews/models.py:190-196 | true iff the display behaviour is 'early_with_info' or 'early_no_info', or certificates show before the end, or the course has ended |
| CourseOverviews.MayCertifyMonotonic | openedx/core/djangoapps/content/course_overviews/models.py:190-206 | a course that may certify at some time still may at every later time |
| CourseOverviews.StartDateIsStillDefault | openedx/core/djangoapps/content/course_overviews/models.py:247-253 | true iff there is no advertised start and the start equals the default start date |
| CourseOverviews.EndDatetimeText | openedx/core/djangoapps/content/course_overviews/models.py:255-265 | the empty string when there is no end date, otherwise the formatted end date |
| CourseOverviews.WithDefault | openedx/core/djangoapps/content/course_overviews/models.py:276-279 | a truthy display value is used, otherwise the fallback; the result is empty only when both are |
| CourseOverviews.DisplayNumberWithDefault | openedx/core/djangoapps/content/course_overviews/models.py:271-279 | the display course number when truthy, otherwise the location's course |
| CourseOverviews.DisplayOrgWithDefault | openedx/core/djangoapps/content/course_overviews/models.py:285-293 | the display organization when truthy, otherwise the location's org |
| CourseOverviews.CleanId | openedx/core/djangoapps/content/course_overviews/models.py:295-302 | "course_" followed by the base 32 encoding of the course key with every '=' replaced by the padding; with a one-character padding the identifier has 7 + 8 characters per started group of five key bytes |
| CourseOverviews.CleanIdDecodes | openedx/core/djangoapps/content/course_overviews/models.py:295-302 | with the default padding, the encoded part decodes back to the course key |
| CourseOverviews.CleanIdUnique | openedx/core/djangoapps/content/course_overviews/models.py:297 | with a one-character padding outside the base 32 alphabet, equal identifiers mean equal course keys |
| CourseOverviews.CleanIdPaddingCollision | openedx/core/djangoapps/content/course_overviews/models.py:297-301 | with padding "A", the keys [0] and [0,0,0,0,0] get the same identifier "course_AAAAAAAA" |
| Base32.Encode | openedx/core/djangoapps/content/course_overviews/models.py:301 | the encoding has 8 symbols per started group of 5 bytes |
| Base32.EncodeLength | openedx/core/djangoapps/content/course_overviews/models.py:301 | the encoding of n bytes has 8 * ceil(n / 5) symbols |
| Base32.EncodeAlphabet | openedx/core/djangoapps/content/course_overviews/models.py:301 | every character of the encoding is a base 32 symbol or '=' |
| Base32.DecodeEncode | openedx/core/djangoapps/content/course_overviews/models.py:301 | decoding the encoding gives back the bytes |
| Base32.EncodeInjective | openedx/core/djangoapps/content/course_overviews/models.py:297-301 | different byte strings have different encodings |
| Text.Replace | openedx/core/djangoapps/content/course_overviews/models.py:185-186 | `str.replace(c, t)` for a one-character pattern, scanning left to right; its guarantees are in the `Replace*` lemmas |
| Text.ReplaceChars | openedx/core/djangoapps/content/course_overviews/models.py:185-186 | after `str.replace(c, t)`, every character came from the input and is not `c`, or came from `t` |
| Text.ReplaceLength | openedx/core/djangoapps/content/course_overviews/models.py:301 | `str.replace` changes the length by (len(t) - 1) per occurrence |
| Text.ReplaceAt | openedx/core/djangoapps/content/course_overviews/models.py:301 | replacing a character by a one-character string maps each character on its own: the pattern to the replacement, the rest unchanged |
| Text.ReplaceKeepsLength | openedx/core/djangoapps/content/course_overviews/models.py:301 | replacing a character by a one-character string keeps the length |
| Text.ReplaceUndo | openedx/core/djangoapps/content/course_overviews/models.py:301 | replacing a character by one absent from the text, and back, restores the text |
| CommentModels.Attribute | lms/djangoapps/django_comment_client/base/models.py:276-282 | `getattr` on a user gives its name, its external id (also under `id` and `pk`), its default sort key, its comment and thread references, its read states, and a `course_id` set on it; every other name is an AttributeError |
| CommentModels.AuthorWithAnonymity | lms/djangoapps/django_comment_client/base/models.py:23-33 | for anonymous content: None without an attribute name, `attr_when_anonymous` with one; otherwise the author (None for a post without one), or the author's attribute, with AttributeError for a missing attribute or a missing author |
| CommentModels.AnonymityHidesAuthor | lms/djangoapps/django_comment_client/base/models.py:23-33 | for anonymous content the answer is the same for every author |
| CommentModels.Thread.ClearEndorsements | lms/djangoapps/django_comment_client/base/models.py:131-138 | every comment of the thread ends up not endorsed, with no endorsement; the list is unchanged and only those two fields of the comments may change |
| CommentModels.ClearEndorsementsKeepsContent | lms/djangoapps/django_comment_client/base/models.py:131-138 | after clearing, a comment's body, sort key, parents, course and anonymity flags are those from before |
| CommentModels.Comment.SetSk | lms/djangoapps/django_comment_client/base/models.py:161-166 | an existing sort key is never changed; a missing one becomes the ancestors' ids and the comment's id joined by "-" |
| CommentModels.SortKeyOfReply | lms/djangoapps/django_comment_client/base/models.py:166 | a reply's sort key is its parent's sort key, "-", and the reply's id |
| CommentModels.Filter | lms/djangoapps/django_comment_client/base/models.py:343-346 | a query returns exactly the documents that match: each matching document as many times as it occurs, every other document not at all, so `len(list(query))` counts the matches with their repeats |
| CommentModels.SubscribedThreadIds | lms/djangoapps/django_comment_client/base/models.py:339-346 | the source ids of the user's subscriptions of type "Thread", in query order; its guarantee is in `SubscribedThreadIdsIff` |
| CommentModels.SubscribedThreadIdsIff | lms/djangoapps/django_comment_client/base/models.py:339-346 | an id is listed iff the user has a subscription of type "Thread" to it |
| CommentModels.CountIn | lms/djangoapps/django_comment_client/base/models.py:436-439 | the loop counts exactly the distinct commented-on thread ids that are group-visible |
| CommentModels.Counts | lms/djangoapps/django_comment_client/base/models.py:384-468 | the two counts are those of the queries: with group ids the group-visible threads and the group-visible distinct commented-on thread ids, without them all authored threads and comments |
| CommentModels.EntriesAt | lms/djangoapps/django_comment_client/base/models.py:357-474 | the dictionary built from the query answers has the base keys, the complete keys when asked and the count keys when counted, and no update overwrites another key's value |
| CommentModels.ToDict | lms/djangoapps/django_comment_client/base/models.py:354-477 | keys are `username` and `external_id`, plus `subscribed_thread_ids`, `id`, `upvoted_ids`, `downvoted_ids` and `default_sort_key` unless `complete` is false, plus `threads_count` and `comments_count` iff a truthy course id comes from the params or the user; the values are the user's fields and the counts of the queries |
| CommentModels.GroupedCountsBounded | lms/djangoapps/django_comment_client/base/models.py:384-439 | with group ids, `comments_count` is the number of group-visible distinct thread ids, at most the distinct ids and at most the count without groups; `threads_count` is at most the count without groups |
| CommentModels.ThreadIdsAtMostComments | lms/djangoapps/django_comment_client/base/models.py:417 | the set of thread ids has at most as many elements as there are comments |
| CommentModels.DuplicateCommentsCountOnceWithGroups | lms/djangoapps/django_comment_client/base/models.py:417-439 | two comments on one thread count 2 without group ids but 1 with them |
| CommentModels.UpvotedIds | lms/djangoapps/django_comment_client/base/models.py:479-483 | always empty |
| CommentModels.DownvotedIds | lms/djangoapps/django_comment_client/base/models.py:486-490 | always empty |
| CommentModels.ActiveThreads | lms/djangoapps/django_comment_client/base/models.py:518-576 | always an empty collection, page 1 of 1 |
| CommentModels.SubscriptionToDict | lms/djangoapps/django_comment_client/base/models.py:602-607 | exactly the keys `subscriber_id`, `source_id` and `source_type`, copied from the fields |
| CommentModels.SubscriptionDictRoundTrip | lms/djangoapps/django_comment_client/base/models.py:602-607 | the dictionary determines the subscription, and every dictionary with exactly those keys is one |

## Left out

- The overwrite order of `_validate_patch` follows the code. Serializer errors are written after the unknown / read-only pass, so they replace an earlier entry for the same key.
- Patch values and serializer error lists are represented by the text `str.format` renders for them. The JSON structure of patch values is not modelled.
- The DRF calls `get_serializer`, `get_object_or_none`, `get_fields`, `is_valid`, `partial_update` and `Response` are inputs or outcomes. `get_course_with_access`, `any_unfulfilled_milestones`, `modulestore().bulk_operations` and `CourseKey.from_string` are booleans or an optional course. The authentication and permission classes are opaque tokens.
- CourseOverviews.DefaultStartDate: the default start date lives in `xmodule.course_module`, which is not part of this model. It is taken as 2030-01-01 UTC, given in seconds since the epoch.
- CourseOverviews.EndDatetimeText: the non-None branch renders the date with `strftime_localized`, and adds a time zone suffix unless the format is "SHORT_DATE". Here the rendered text is a `formatted` parameter. `start_datetime_text` is left out for the same reason: it parses dates and localises them.
- `create_from_course`, the JSON text fields (lines 19-49 of the course overviews models), South introspection and `UsageKey.from_string(...).map_into_course` are left out. `location` is a given field and `datetime.now(UTC())` is a `now` parameter.
- CourseOverviews.CleanId: the course key is taken as the bytes of its ASCII text. Non-ASCII keys are not modelled. The padding is any string, as in Python. Uniqueness is proved only for a one-character padding outside the base 32 alphabet, and `CleanIdPaddingCollision` shows why that condition is needed.
- CommentModels.Comment.SetSk: the source builds the key with the literal `parent_ids.copy() + self.id`, which cannot run. `Comment` declares no `parent_ids`, and a list plus a string raises TypeError. The model assumes the evident join of the ancestors' ids and the comment's id with "-".
- CommentModels.Filter: the contract gives how many times each document is kept, not the order of the result. The order is the query's order only through the definition, and only `SubscribedThreadIds` exposes it; the counts do not depend on it.
- CommentModels.ToDict: comments are read through their `comment_thread_id`, which the `Comment` document does not declare. The model treats it as the id of the comment's thread. With group ids, `comments_count` counts distinct thread ids, because a set drops duplicates. That is how the code is written, even though the comment beside it says duplicates are kept. `DuplicateCommentsCountOnceWithGroups` shows the resulting difference from the count without groups.
- CommentModels.ToDict: the `print` of the threads in the branch without groups is output only and is left out. `getattr(self, 'course_id', None)` is the user's optional `courseId`.
- The database queries (`objects(...)`, `get_or_create`, `delete`), `follow`, `unfollow`, `from_django_user`, `set_username`, `Subscription.subscriber` / `source`, `ReadState.to_dict` and the `connect` calls are persistence or I/O and are left out. Queries become filters over the `Store`.
- `Thread.to_dict` cannot produce a result: its key list comes from `' '.split(...)`, whose only element is not a key, and it returns nothing. `Thread.comment_thread_id` and `set_last_activity_at` (which reads the clock) are left out, as are the `NotImplementedError` stubs.
- CommentModels.Attribute: `getattr` on a user covers its stored fields (`username`, `external_id`, `default_sort_key`, `comments`, `threads`, `read_states`), the primary-key names `id` and `pk`, and a `course_id` set on the user. Methods, properties and the attributes every Python object carries are not modelled, and the model answers AttributeError for them. `comments` and `threads` are given as the ids of the referenced documents.
