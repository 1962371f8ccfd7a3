# pybo board and paired chat: a verified model

This project models the core logic of the "pybo" Django site in Dafny. The site has two parts.

The Q&A board has questions, answers and comments. Services look rows up, create, edit, delete and vote on them. Editing and deleting are allowed to the row's author only. The part also covers:
- the application's exception classes, with their default messages and HTTP status codes;
- the two template helpers that number the rows of the question list;
- the management command that backfills missing user profiles.

The paired chat lets two users share one room. A room is found or created for a pair of users put in canonical order. Messages are appended to a log and refresh their room's `updated_at`. A WebSocket consumer handles each connection. It rejects anonymous users, joins the room's broadcast group, sends the latest 30 messages oldest first, and stores and broadcasts every message it receives. Two views open a room with another user and report the user's most recently active room.

Database tables are in-memory values held by classes whose methods update them in place:
- `ChatModels.ChatDb` holds users, rooms and messages.
- `PyboModels.Board` holds questions, answers and comments.
- `CreateMissingProfiles.Accounts` holds users and profiles.
- `ChatConsumers.ChannelLayer` holds group memberships and the events delivered to each channel.

Timestamps come from an abstract clock, a natural number that goes up by one every time "now" is read. Python exceptions raised by the services are the `Err` case of a `Result`. Functions that only compute are Dafny functions, and the lemmas about them carry the promised properties. Each method that changes a table states the whole new state. Each loop is proved against a specification function.

Modules, one per source file (plus one helper):
- `Text`: decimal rendering of ids. It is used for group names and error messages.
- `Exceptions`: `common/exceptions.py`.
- `PyboFilter`: `pybo/templatetags/pybo_filter.py`.
- `ChatModels`: `chat/models.py`.
- `ChatConsumers`: `chat/consumers.py`.
- `ChatViews`: `chat/views.py`.
- `PyboModels`: the board's tables as the services use them.
- `QuestionService`, `AnswerService` and `CommentService`: `pybo/services/*.py`.
- `CreateMissingProfiles`: `common/management/commands/create_missing_profiles.py`.

## Model

| member | source | states |
|---|---|---|
| Exceptions.DefaultStatus | common/exceptions.py:4-34 | definition: the class default status codes are 500, 404, 403, 400 and 401, each an HTTP error status in 400..500 |
| Exceptions.DefaultMessage | common/exceptions.py:5-35 | every class has a non-empty default message |
| Exceptions.Raise | common/exceptions.py:7-10 | the message is the given one when truthy and the class default otherwise; the status code is the given one when truthy and the class default otherwise |
| Exceptions.Str | common/exceptions.py:11-11 | definition: the string form of an exception is the message passed to `Exception.__init__`, which is `self.message` |
| Exceptions.StrNeverEmpty | common/exceptions.py:8-11 | the string form of an exception is its message, and it is never empty |
| Exceptions.ZeroStatusKeepsDefault | common/exceptions.py:9-10 | passing status code 0 is the same as passing none: the class default stays |
| Exceptions.EmptyMessageKeepsDefault | common/exceptions.py:8-8 | passing an empty message is the same as passing none |
| Exceptions.DefaultStatusesDistinct | common/exceptions.py:4-35 | the five classes have five different default status codes |
| Exceptions.NotFound | common/exceptions.py:14-17 | a ResourceNotFoundException with a message of its own has status 404 and that message as its string |
| Exceptions.Forbidden | common/exceptions.py:20-23 | a PermissionDeniedException with a message of its own has status 403 and that message as its string |
| PyboFilter.Sub | pybo/templatetags/pybo_filter.py:7-8 | adding `arg` back to the result gives `value` |
| PyboFilter.ReverseIndex | pybo/templatetags/pybo_filter.py:11-12 | the row number is `sub(total, start + counter0) + 1` |
| PyboFilter.FirstRowShowsTotal | pybo/templatetags/pybo_filter.py:11-12 | the first row of the first page is numbered with the total count |
| PyboFilter.NextRowIsOneLess | pybo/templatetags/pybo_filter.py:11-12 | one row further down the page the number is exactly one lower |
| PyboFilter.RowNumberPositive | pybo/templatetags/pybo_filter.py:11-12 | the number is at least 1 while `start + counter0` does not exceed the total |
| PyboFilter.PageNumbers | pybo/templatetags/pybo_filter.py:11-12 | definition: a page of `n` rows shows `n` numbers, the k-th being `reverse_index(total, start, k)` |
| PyboFilter.PageNumbersInRange | pybo/templatetags/pybo_filter.py:11-12 | on a page inside the list, the numbers lie in 1..total and strictly decrease, and the item at 1-based position `p` shows `total - p + 1` |
| Text.NatToString | chat/consumers.py:10-10 | an id renders as a non-empty string of decimal digits |
| Text.NatToStringInjective | chat/consumers.py:10-10 | different ids render differently |
| Text.PrefixedNatInjective | chat/consumers.py:10-10 | a fixed prefix followed by an id's text determines the id |
| ChatModels.FindRoom | chat/models.py:16-16 | the lookup half of get-or-create returns the first row holding the pair, or none exactly when no row holds it |
| ChatModels.GetOrCreate | chat/models.py:13-17 | the room returned is for the two given users, in canonical order (lower id first), and is in the resulting table |
| ChatModels.GetRoomSymmetric | chat/models.py:13-17 | `get_room(a, b)` and `get_room(b, a)` give the same room and the same table |
| ChatModels.SelfRoomAllowed | chat/models.py:14-16 | a user may open a room with themselves; both users of that room are that user |
| ChatModels.GetRoomKeepsTable | chat/models.py:9-10 | get-or-create preserves the table invariant (ids, canonical order, uniqueness of the pair); it either leaves table and clock as they were or appends exactly one new row stamped now |
| ChatModels.GetRoomRepeat | chat/models.py:9-17 | a second call for the same pair, in either order, returns the same room and does not grow the table |
| ChatModels.OneRoomPerPair | chat/models.py:9-10 | in a valid table, two rooms for the same unordered pair are the same row |
| ChatModels.ChatDb.GetRoom | chat/models.py:13-17 | the scanning loop returns the room and leaves the table and clock exactly as `GetOrCreate` says; messages and users unchanged; invariant kept |
| ChatModels.ChatDb.SaveMessage | chat/models.py:19-28 | the message is appended with the next id and `sent_at` = now, then only its own room's `updated_at` is set to a later now; the invariant (chronological log, rooms exist) is kept |
| ChatModels.ChatDb.SetUpdatedAt | chat/consumers.py:48-48 | a filtered `update(updated_at=t)` touches only the row with that id, and nothing when there is none |
| ChatConsumers.GroupName | chat/consumers.py:10-10 | the group name is `chat_` followed by the room id in decimal |
| ChatConsumers.GroupNamesDistinct | chat/consumers.py:10-10 | different rooms have different group names |
| ChatConsumers.RoomMessages | chat/consumers.py:53-54 | a message is in the filtered list exactly when it is in the log and belongs to the room |
| ChatConsumers.Reverse | chat/consumers.py:56-56 | definition: the reverse has the same length and holds the elements in the opposite order |
| ChatConsumers.Take | chat/consumers.py:56-56 | the slice `[:limit]` has `min(limit, n)` elements, the first ones |
| ChatConsumers.RoomMessagesChronological | chat/consumers.py:56-56 | a room's messages keep the log's strictly increasing `sent_at`, so their reverse is the `-sent_at` order |
| ChatConsumers.NewestKept | chat/consumers.py:56-56 | `[::-1]` of the first `limit` of the reversed list is the last `min(limit, n)` elements in their original order |
| ChatConsumers.HistoryMessages | chat/consumers.py:51-56 | the newest `limit` messages, re-reversed, are the room's last `min(limit, n)` messages in stored order |
| ChatConsumers.HistoryIsNewestSuffix | chat/consumers.py:51-56 | the history is the room's last `min(limit, n)` messages in stored order, and all come from that room |
| ChatConsumers.History | chat/consumers.py:51-61 | `min(limit, n)` items, oldest first; item `i` carries the id, the sender's username, the text and the time of the room's message at position `n - k + i` |
| ChatConsumers.ShortHistoryIsWholeLog | chat/consumers.py:51-56 | with at most `limit` messages, the history is the room's whole log in stored order |
| ChatConsumers.HistoryItems | chat/consumers.py:57-61 | each history entry carries the message's id, its sender's username, its text and its `sent_at`, in the same order |
| ChatConsumers.Deliver | chat/consumers.py:31-34 | a group send appends the event once to each member's inbox and to nobody else's |
| ChatConsumers.LeftChannelGetsNothing | chat/consumers.py:25-34 | a channel removed from the group receives nothing from a later send; a member receives the event |
| ChatConsumers.ChannelLayer.GroupAdd | chat/consumers.py:17-17 | the channel is added to the group; other groups and the inboxes are unchanged |
| ChatConsumers.ChannelLayer.GroupDiscard | chat/consumers.py:26-26 | the channel is removed from the group (a no-op if absent); other groups and the inboxes are unchanged |
| ChatConsumers.ChannelLayer.GroupSend | chat/consumers.py:31-34 | the inboxes become `Deliver` of the event to the group's current members; memberships unchanged |
| ChatConsumers.ChatConsumer.Connect | chat/consumers.py:8-23 | a missing or anonymous user is rejected without joining the group and is sent nothing; an authenticated user joins the group and is sent exactly one `chat_history` event holding the room's latest 30 messages; no participant check |
| ChatConsumers.ChatConsumer.Disconnect | chat/consumers.py:25-26 | the channel is no longer in the room's group, whatever the code; nothing else changes |
| ChatConsumers.ChatConsumer.SaveMessage | chat/consumers.py:39-49 | exactly one message is appended for the connection's room and user, and that room's `updated_at` ends equal to the message's `sent_at` |
| ChatConsumers.ChatConsumer.Receive | chat/consumers.py:28-34 | without a `message` key nothing is stored or sent; otherwise one message is stored and one `chat_message` event with its id, sender username, text and time goes to every group member |
| ChatConsumers.ChatConsumer.ChatMessage | chat/consumers.py:36-37 | the event is forwarded to the client unchanged |
| ChatViews.LatestRoom | chat/views.py:19-25 | none exactly when the user is in no room; otherwise a room of the table that involves the user, with `updated_at` at least that of every room involving the user |
| ChatViews.Partner | chat/views.py:29-29 | the partner is always one of the room's two users; for a room the user is in, it is the room's other user (the user themselves in a self-room) |
| ChatViews.TouchedRoomIsLatest | chat/views.py:17-30 | after a room is touched with a time later than every other, it is the latest room of each of its users |
| ChatViews.LatestRoomView | chat/views.py:17-30 | 204 exactly when the user is in no room; otherwise the id and partner's username of a most recently updated room involving the user; no state change |
| ChatViews.ChatWith | chat/views.py:8-15 | an unknown user id gives 404 and changes nothing; otherwise the tables become what `get_room(request.user, other)` gives, and the answer carries that room's id (and the partner's username for AJAX) |
| PyboModels.NotFoundMessage | pybo/services/question_service.py:38-38 | the not-found message is never empty |
| PyboModels.NotFoundError | pybo/services/question_service.py:37-38 | the error every service raises for a missing row is a ResourceNotFoundException with status 404 whose string is `"{kind} with ID {id} not found"` |
| PyboModels.NotFoundMessagesDistinct | pybo/services/question_service.py:38-38 | the not-found messages for different ids differ |
| PyboModels.Voted | pybo/services/question_service.py:82-82 | the voter set gains the user and nothing else, with no author exclusion |
| PyboModels.VoteIdempotent | pybo/services/answer_service.py:62-62 | voting twice is the same as voting once |
| PyboModels.Board.Now | pybo/services/question_service.py:45-45 | reading now advances the clock by one and returns the new time |
| QuestionService.GetQuestion | pybo/services/question_service.py:33-38 | the row exactly when the id is present, else ResourceNotFound with that id's message; reads only |
| QuestionService.CreateQuestion | pybo/services/question_service.py:40-50 | exactly one new row is added with a fresh id, `author = user`, the given subject, content and image, `create_date` = now, no modify date and no votes |
| QuestionService.Edited | pybo/services/question_service.py:60-64 | subject and content replaced, image replaced only when one is given, modify date set; id, author, create date and votes kept |
| QuestionService.ModifyQuestion | pybo/services/question_service.py:52-66 | not found: error, nothing changes; not the author: PermissionDenied, nothing changes; author: that row becomes `Edited` and no other row changes |
| QuestionService.DeleteQuestion | pybo/services/question_service.py:68-76 | not found: error; not the author: PermissionDenied and the row stays; author: exactly that row is removed |
| QuestionService.VoteQuestion | pybo/services/question_service.py:78-83 | not found: error; otherwise only that row's voter set gains the user |
| QuestionService.CreateThenDelete | pybo/services/question_service.py:40-76 | creating a question and deleting it as its author leaves every table as it was |
| AnswerService.CreateAnswer | pybo/services/answer_service.py:10-25 | a missing question gives ResourceNotFound and nothing is created; otherwise exactly one answer is added, linked to that question, by `user`, created now |
| AnswerService.GetAnswer | pybo/services/answer_service.py:27-33 | the row exactly when the id is present, else ResourceNotFound; reads only |
| AnswerService.Edited | pybo/services/answer_service.py:43-44 | content replaced and modify date set; question, author, create date and votes kept |
| AnswerService.ModifyAnswer | pybo/services/answer_service.py:35-46 | not found or not the author: the matching error and nothing changes; author: that row becomes `Edited` |
| AnswerService.DeleteAnswer | pybo/services/answer_service.py:48-56 | not found or not the author: the matching error and the row stays; author: exactly that row is removed |
| AnswerService.VoteAnswer | pybo/services/answer_service.py:58-63 | not found: error; otherwise only that row's voter set gains the user |
| CommentService.Insert | pybo/services/comment_service.py:18-24 | the `Comment(...)` plus `comment.save()` shared by both creators (also lines 35-41): a fresh id, the given target, content and author, created now, and no modify date; the other tables are untouched |
| CommentService.CreateQuestionComment | pybo/services/comment_service.py:10-25 | a missing question gives ResourceNotFound and nothing is created; otherwise one comment on that question (not on an answer) by `user`, created now |
| CommentService.CreateAnswerComment | pybo/services/comment_service.py:27-42 | a missing answer gives ResourceNotFound and nothing is created; otherwise one comment on that answer by `user`, created now |
| CommentService.GetComment | pybo/services/comment_service.py:44-50 | the row exactly when the id is present, else ResourceNotFound; reads only |
| CommentService.Edited | pybo/services/comment_service.py:60-61 | content replaced and modify date set; target, author and create date kept |
| CommentService.ModifyComment | pybo/services/comment_service.py:52-63 | not found or not the author: the matching error and nothing changes; author: that row becomes `Edited` |
| CommentService.DeleteComment | pybo/services/comment_service.py:65-73 | not found or not the author: the matching error and the row stays; author: exactly that row is removed |
| CreateMissingProfiles.WithoutProfile | common/management/commands/create_missing_profiles.py:15-17 | a user is collected exactly when it is a user without a profile; the query order comes from the definition, which `Accounts.FindUsersWithoutProfiles` is proved equal to |
| CreateMissingProfiles.Ids | common/management/commands/create_missing_profiles.py:22-23 | every listed user's id is in the set (the converse is `IdsOnlyOfUsers`) |
| CreateMissingProfiles.IdsOnlyOfUsers | common/management/commands/create_missing_profiles.py:22-23 | every id in the set is the id of one of the listed users, so profiles are created only for collected users |
| CreateMissingProfiles.WithoutProfileDistinct | common/management/commands/create_missing_profiles.py:15-17 | the collected users have distinct ids |
| CreateMissingProfiles.IdsCount | common/management/commands/create_missing_profiles.py:22-25 | users with distinct ids have as many ids as users, so one profile is created per collected user |
| CreateMissingProfiles.NothingMissingWhenComplete | common/management/commands/create_missing_profiles.py:20-27 | once every user has a profile, nobody is collected |
| CreateMissingProfiles.NewProfilesAccounting | common/management/commands/create_missing_profiles.py:15-25 | after adding one profile per collected user, every user has a profile and the number of new profiles equals the number of users that lacked one |
| CreateMissingProfiles.CreatedLines | common/management/commands/create_missing_profiles.py:24-24 | one "Created profile" line per collected user, with that user's username, in order |
| CreateMissingProfiles.Report | common/management/commands/create_missing_profiles.py:12-27 | the output starts with the "Checking" line; its second line is "No action needed" exactly when nobody lacks a profile; otherwise it is "Found n", one "Created" line per collected user in order, then "Successfully created n", `n + 3` lines in all |
| CreateMissingProfiles.PrefixStep | common/management/commands/create_missing_profiles.py:22-24 | handling one more collected user adds exactly its id and its report line |
| CreateMissingProfiles.Accounts.FindUsersWithoutProfiles | common/management/commands/create_missing_profiles.py:15-17 | the first loop collects exactly `WithoutProfile(users, profiles)` |
| CreateMissingProfiles.Accounts.CreateProfiles | common/management/commands/create_missing_profiles.py:22-24 | the second loop adds exactly the collected users' profiles, keeps existing ones and writes one line per user |
| CreateMissingProfiles.Accounts.Handle | common/management/commands/create_missing_profiles.py:8-27 | afterwards every user has a profile; only users that lacked one got one, one each; existing profiles and the users are untouched; the output is the report for that run |
| CreateMissingProfiles.HandleTwice | common/management/commands/create_missing_profiles.py:8-27 | the first run adds exactly the missing users' profiles, after which every user has one, and writes its report; the second run leaves the profiles as they are and writes "Checking" followed by "No action needed" |

## Left out

- JSON encoding and decoding, and the ISO 8601 text of timestamps, are left out. Payloads and events are already-decoded records, and times are clock values.
- The channel layer's asynchrony and cross-process fan-out are left out. A group send reaches every current member in one sequential step.
- `await self.close()` and `accept()` are only recorded in the connection's phase. The WebSocket transport is not modelled.
- The database's behaviour under concurrent get-or-create (the uniqueness race) is left out. Only the sequential get-or-create is modelled.
- `chat/routing.py` is not part of this model. The route's `room_id` is taken to be an integer, as the `<int:room_id>` of `chat/urls.py` suggests.
- ChatConsumers.ChatConsumer.Receive: the model does not cover an uncaught exception in `receive`, such as a missing `message` key or a failed insert. Python would close the socket. The model returns an outcome and changes nothing.
- ChatConsumers.ChatConsumer.Receive: a room id that names no room is modelled as a failed insert that stores nothing. Django's foreign-key check is not modelled further.
- ChatViews.LatestRoom: when two rooms share the greatest `updated_at`, the model picks the first in table order. The database leaves that order unspecified.
- ChatConsumers.HistoryMessages: sorting by `-sent_at` is modelled as reversing the room's log. This relies on the log's strictly increasing `sent_at`, which the clock guarantees. Ties are not modelled.
- `pybo/models.py`, `common/models.py` and the migrations are not part of this model. Deleting a question or answer removes exactly that row; cascades to its answers and comments are not modelled.
- QuestionService.ModifyQuestion: any non-`None` image argument, `False` included, is assigned as it is. Non-string values such as `False` do not fit `Option<string>` and are not modelled.
- Uploaded files, user objects and request objects become ids and strings. Authors are compared by user id.
- `QuestionService.get_question_list` (pagination and search), the views, URL configs, forms, `common/services.py`, `seed_data.py`, the admin, the ASGI wiring and the JavaScript widget are left out. They are framework glue or depend on library behaviour outside this repository.
- The command's stdout lines, including their styling, are modelled as a list of line records instead of text.
- The `chat_room` view only renders a template and is left out.
