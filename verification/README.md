# Event planning core in Dafny

A model of the domain layer of a small event-planning application. An **event** has
a name, a date and a budget. It owns four kinds of child records: **participants**,
**speakers**, **vendors** and **feedback**. The model covers:

- the entity classes, including their validating setters and their `to_dict`
  serialisations;
- the two parallel service layers: the session-based services (the `services`
  package) and the repository-based services (the `src/services` package);
- the entity factory;
- the publish/subscribe notification registry.

The database is an in-memory store. It has one table per entity, and each table is a
map from id to row plus the next value of its id sequence (`Tables`, `Storage`).
Every service call is a pure function. It maps a store to a new store and a reply:

- `Done(value)`: a result. A `delete` answers `Done(b)`, where `b` says whether the
  id existed: Python's `True` or `False`;
- `Missing`: Python's `None`;
- `Raised(error)`: an exception. A session that raises is rolled back, so the store
  comes back unchanged.

The store invariant `Storage.Valid` has three parts:

- every id was drawn from its sequence;
- every stored row satisfies its setters' rules (non-empty name, date or content;
  budget ≥ 0);
- every child names a stored event.

Every write operation is proved to preserve it.

Modules follow the program's files:

- `Common`, `Strings`: Python values used throughout (optional strings and their
  truthiness, `int()` on a float, `str.strip()`, `str(int)`, the display labels);
- `EventEntity`, `ChildEntities`: the model classes;
- `EntityFactory`;
- `Notifications`;
- `EventService`, `ParticipantService`, `SpeakerService`, `VendorService`,
  `FeedbackService`: the session-based services;
- `RepoEventService`, `RepoParticipantService`, `RepoSpeakerService`,
  `RepoVendorService`, `RepoFeedbackService`: the repository-based services;
- `LayerLaws`: how the two layers relate.

Several repository-based operations do exactly what their session-based counterparts
do, so the session-based function models both:

- `delete` and `get_budget` of src/services/event_service.py (31-36, 59-61), by
  `EventService.Delete` and `EventService.GetBudget`;
- `update` and `delete` of src/services/participant_service.py (23-36), by
  `ParticipantService`;
- `create`, `update` and `delete` of src/services/speaker_service.py (13-37),
  src/services/vendor_service.py (12-36) and src/services/feedback_service.py
  (12-33), by `SpeakerService`, `VendorService` and `FeedbackService`. Only the order
  of `create`'s arguments differs.

## Model

| member | source | states |
|---|---|---|
| Common.Truncate | services/event_service.py:32 | `int()` of a number truncates toward zero: the result is the integer within distance 1 of `x` on the side of zero |
| Strings.Supplied | services/speaker_service.py:30 | the guard `v and v.strip()` holds exactly when the value is present and has a non-whitespace character |
| Strings.LeadingBlanks | services/speaker_service.py:30-32 | the leading-whitespace count of `strip()`: that many characters are blank and the next one, if any, is not |
| Strings.Strip | services/speaker_service.py:30-32 | `strip()` yields `s` with its leading blanks and a blank suffix cut off: a slice of `s` that is empty exactly for blank text, and otherwise starts and ends with a non-space |
| Strings.StripLeft | services/speaker_service.py:30 | the leading half of `strip()` removes a blank prefix and leaves a suffix that is empty or starts with a non-space |
| Strings.StripRight | services/speaker_service.py:30 | the trailing half of `strip()` removes a blank suffix and leaves a prefix that is empty or ends with a non-space |
| Strings.IntToString | src/services/event_service.py:43 | `str(id)` reads back as the id and contains no colon |
| Strings.DisplayNameInjective | src/services/event_service.py:43 | a label `"<id>: <name>"` determines both the id and the name |
| Strings.FeedbackLabelInjective | src/services/feedback_service.py:43 | a label `"Feedback <id>"` determines the id |
| EventEntity.SetName | models/event.py:30-34 | the name setter refuses exactly `None` and `""` with the name error; otherwise only the name changes |
| EventEntity.SetDate | models/event.py:41-45 | the date setter refuses exactly `None` and `""`; otherwise only the date changes |
| EventEntity.SetBudget | models/event.py:52-56 | the budget setter refuses exactly negative values; zero and positive values are stored and nothing else changes |
| EventEntity.NewEvent | models/event.py:20-23 | construction succeeds iff name and date are truthy and budget ≥ 0; the first failing setter (name, date, budget) decides the error; every constructed event is valid |
| EventEntity.DefaultBudgetIsZero | src/models/event.py:19-22 | omitting the budget builds an event with budget 0 |
| EventEntity.ToDict | models/event.py:58-68 | `to_dict` reads back as the event's id and columns, and carries exactly the given four collections |
| EventEntity.ToDictSelective | src/models/event.py:57-79 | without relations the dictionary has only the columns; with relations it carries the loaded collections, or four empty lists when they cannot be read |
| ChildEntities.SetParticipantName | models/participant.py:23-27 | refuses exactly `None` and `""`; otherwise only the name changes |
| ChildEntities.NewParticipant | models/participant.py:15-17 | fails only for an empty name; stores name and `event_id` as given, without looking for the event |
| ChildEntities.ParticipantToDict | models/participant.py:29-34 | the dictionary reads back as exactly the id and the participant |
| ChildEntities.SetSpeakerName | models/speaker.py:25-29 | refuses exactly `None` and `""`; otherwise only the name changes |
| ChildEntities.SetDescription | models/speaker.py:35-37 | any description is accepted, `None` and `""` included, and only the description changes |
| ChildEntities.NewSpeaker | models/speaker.py:16-19 | fails only for an empty name; otherwise stores the three arguments verbatim |
| ChildEntities.SpeakerToDict | models/speaker.py:39-45 | the dictionary reads back as exactly the id and the speaker |
| ChildEntities.SetVendorName | models/vendor.py:25-29 | refuses exactly `None` and `""`; otherwise only the name changes |
| ChildEntities.SetServices | models/vendor.py:35-37 | any services value is accepted and only it changes |
| ChildEntities.NewVendor | models/vendor.py:16-19 | fails only for an empty name; otherwise stores the three arguments verbatim |
| ChildEntities.VendorToDict | models/vendor.py:39-45 | the dictionary reads back as exactly the id and the vendor |
| ChildEntities.SetContent | models/feedback.py:23-27 | refuses exactly `None` and `""`; otherwise only the content changes |
| ChildEntities.NewFeedback | models/feedback.py:15-17 | fails only for empty content; stores content and `event_id` as given |
| ChildEntities.FeedbackToDict | models/feedback.py:29-34 | the dictionary reads back as exactly the id and the feedback |
| Tables.Insert | create_table.py:36 | an insert draws the next value of the `serial` sequence, which no stored row has, and keeps the ids fresh |
| Tables.OwnedIds | models/event.py:15-18 | selecting by foreign key yields exactly the rows naming the event, by increasing id |
| Storage.ParticipantsOf | models/event.py:15 | the `participants` relationship lists exactly the participants naming the event, each as its own `to_dict`, by increasing id |
| Storage.SpeakersOf | models/event.py:16 | the `speakers` relationship lists exactly the speakers naming the event, by increasing id |
| Storage.VendorsOf | models/event.py:17 | the `vendors` relationship lists exactly the vendors naming the event, by increasing id |
| Storage.FeedbacksOf | models/event.py:18 | the `feedbacks` relationship lists exactly the feedback naming the event, by increasing id |
| Storage.RelationsOf | models/event.py:15-18 | each of an event's four collections lists exactly its children of that kind |
| Storage.EventDict | models/event.py:58-68 | the event's dictionary reads back as its id and columns and carries its four collections |
| Storage.DeleteEventCascade | models/event.py:15-18 | deleting an event removes it and every child naming it, keeps every other child unchanged, adds nothing, and keeps the store valid |
| EntityFactory.CreateEvent | src/factory/entity_factory.py:10-11 | builds an event with exactly the arguments, or raises the constructor's error; no extra check |
| EntityFactory.CreateParticipant | src/factory/entity_factory.py:14-15 | builds a participant with exactly the given name and event id; it does not check that the event exists |
| EntityFactory.CreateFeedback | src/factory/entity_factory.py:18-19 | builds a feedback with exactly the given content and event id |
| EntityFactory.CreateSpeaker | src/factory/entity_factory.py:22-23 | builds a speaker whose fields equal the arguments |
| EntityFactory.CreateVendor | src/factory/entity_factory.py:26-27 | builds a vendor whose fields equal the arguments |
| Notifications.NewRegistry | src/notifications/notification_manager.py:4-6 | the registry starts (and the module's single instance is built) with no listener under any label |
| Notifications.Subscribe | src/notifications/notification_manager.py:8-12 | appends the listener at the end of its label's list, creating the list when absent; other labels keep their lists |
| Notifications.Run | src/notifications/notification_manager.py:17-18 | listeners are called in order, once each, with the data; a raising listener is the last one called |
| Notifications.Notify | src/notifications/notification_manager.py:14-18 | only the label's own listeners are called, in subscription order, with the data; an unknown label calls nobody; the dispatch raises iff one of them raises, and otherwise every listener is called |
| Notifications.SubscribeThenNotify | src/notifications/notification_manager.py:12-18 | a new subscriber runs after all earlier ones, which run as before |
| Notifications.OtherLabelsUnaffected | src/notifications/notification_manager.py:16-17 | subscribing under one label does not change another label's dispatch |
| Notifications.SubscribedTwiceRunsTwice | src/notifications/notification_manager.py:12 | there is no de-duplication: a listener subscribed twice runs twice |
| Notifications.RaisingListenerStopsDispatch | src/notifications/notification_manager.py:17-18 | a raising listener ends the dispatch; no later listener runs |
| EventService.Create | services/event_service.py:7-19 | succeeds iff the constructor accepts the fields, and then inserts exactly the new event under a fresh id and answers its dictionary with no children; otherwise raises the first setter error and stores nothing |
| EventService.ApplyPatch | services/event_service.py:27-32 | only supplied keys change, each through its setter; a supplied date must parse and its parsed form is stored; the budget is truncated; the first failure decides the error |
| EventService.Update | services/event_service.py:21-39 | `None` iff the id is unknown; otherwise the patch is written to that one row or, on any failed assignment, raises and the store is unchanged |
| EventService.Delete | services/event_service.py:41-54 | `False` for an unknown id and no change; otherwise `True`, the event and exactly its children are gone |
| EventService.ListEvents | services/event_service.py:57-63 | one dictionary per stored event, each with its own collections, by increasing id |
| EventService.UpdateBudget | services/event_service.py:65-78 | `None` for an unknown id; raises iff old budget + amount < 0 and then changes nothing; otherwise stores the sum in that one row |
| EventService.GetBudget | services/event_service.py:80-88 | `None` iff the id is unknown, else the stored budget |
| EventService.EditBudget | services/event_service.py:90-103 | `None` for an unknown id; raises iff the new budget is negative and then changes nothing; otherwise stores exactly the new budget |
| EventService.UpdateBudgetIsEditBudget | services/event_service.py:65-103 | adding an amount is the same call as editing to the sum |
| EventService.GetBudgetAfterUpdate | services/event_service.py:65-88 | `get_budget` reads back the sum an accepted `update_budget` stored |
| EventService.EmptyPatchChangesNothing | services/event_service.py:21-34 | an update with no keys leaves the store as it was and answers the stored event |
| EventService.DeletedEventIsGone | services/event_service.py:41-88 | after `delete` the event has no budget, cannot be updated and is not listed |
| ParticipantService.Create | services/participant_service.py:7-22 | `None` iff the event id names no stored event; otherwise inserts exactly the participant under a fresh id, or raises for an empty name and stores nothing |
| ParticipantService.Update | services/participant_service.py:24-37 | `None` for an unknown id; an empty name raises and changes nothing; otherwise only that row's name changes |
| ParticipantService.Delete | services/participant_service.py:39-52 | answers whether the id existed and removes exactly that row |
| ParticipantService.GetAttendees | services/participant_service.py:55-63 | `None` iff the event is unknown; otherwise exactly the dictionaries of that event's participants |
| ParticipantService.CreatedIsListed | services/participant_service.py:13-17 | a participant just created appears in its event's attendees |
| ParticipantService.DeletedIsNotListed | services/participant_service.py:39-63 | a deleted participant is listed under no event |
| ParticipantService.UpdateKeepsEvent | services/participant_service.py:24-32 | renaming keeps the participant's event |
| SpeakerService.Create | services/speaker_service.py:7-22 | `None` iff the event id names no stored event; otherwise inserts exactly the speaker, or raises for an empty name and stores nothing |
| SpeakerService.Revise | services/speaker_service.py:30-33 | a field changes only when its new value is supplied as non-blank text; the event link is kept |
| SpeakerService.Update | services/speaker_service.py:24-40 | `None` for an unknown id; never raises; writes exactly the revised speaker into that row |
| SpeakerService.Delete | services/speaker_service.py:42-55 | answers whether the id existed and removes exactly that row |
| SpeakerService.ListSpeakers | services/speaker_service.py:58-66 | `None` iff the event is unknown; otherwise exactly the dictionaries of its speakers |
| SpeakerService.BlankUpdateChangesNothing | services/speaker_service.py:30-33 | an update with only blank or missing values leaves the store unchanged |
| SpeakerService.UpdateIdempotent | services/speaker_service.py:24-35 | repeating an update changes nothing more |
| SpeakerService.CreatedIsListed | services/speaker_service.py:13-17 | a speaker just created appears in its event's listing |
| VendorService.Create | services/vendor_service.py:7-22 | `None` iff the event id names no stored event; otherwise inserts exactly the vendor, or raises for an empty name and stores nothing |
| VendorService.Revise | services/vendor_service.py:30-33 | a field changes only when its new value is supplied as non-blank text |
| VendorService.Update | services/vendor_service.py:24-40 | `None` for an unknown id; never raises; writes exactly the revised vendor into that row |
| VendorService.Delete | services/vendor_service.py:42-55 | answers whether the id existed and removes exactly that row |
| VendorService.ListVendors | services/vendor_service.py:58-66 | `None` iff the event is unknown; otherwise exactly the dictionaries of its vendors |
| VendorService.BlankUpdateChangesNothing | services/vendor_service.py:30-33 | an update with only blank or missing values leaves the store unchanged |
| VendorService.UpdateIdempotent | services/vendor_service.py:24-35 | repeating an update changes nothing more |
| VendorService.CreatedIsListed | services/vendor_service.py:13-17 | a vendor just created appears in its event's listing |
| FeedbackService.Create | services/feedback_service.py:7-22 | `None` iff the event id names no stored event; empty content raises and stores nothing; otherwise inserts exactly the feedback |
| FeedbackService.Update | services/feedback_service.py:24-37 | `None` for an unknown id; empty content raises and changes nothing; otherwise only that row's content changes |
| FeedbackService.Delete | services/feedback_service.py:39-52 | answers whether the id existed and removes exactly that row |
| FeedbackService.CreatedIsInEventFeedbacks | models/event.py:18 | feedback just created appears in its event's `feedbacks` collection |
| FeedbackService.SameContentChangesNothing | services/feedback_service.py:24-32 | rewriting the stored content leaves the store unchanged |
| RepoEventService.Committed | src/repositories/event_repository.py:10-33 | a dictionary answered after a repository commit reads back as the stored event; an event loaded by `get_by_id` (collections joined in) carries its children, a factory-built one four empty lists |
| RepoEventService.Create | src/services/event_service.py:11-16 | a constructor error raises before anything is stored or announced; otherwise the event is inserted and `event_created` is notified with it; a raising listener makes `create` raise but the event stays stored |
| RepoEventService.ApplyPatch | src/services/event_service.py:22-27 | only supplied keys change; the date is stored verbatim through its setter; the budget is truncated; the first failure decides |
| RepoEventService.Update | src/services/event_service.py:18-29 | `None` iff the id is unknown; otherwise the patch is written to that one row and the answer carries the event's children, or the update raises and nothing is saved |
| RepoEventService.Listing | src/services/event_service.py:41-47 | an entry carries the event's columns and the label `"<id>: <name>"` |
| RepoEventService.ListEvents | src/services/event_service.py:38-49 | one entry per stored event, by increasing id |
| RepoEventService.UpdateBudget | src/services/event_service.py:51-57 | `None` for an unknown id; raises iff the sum is negative and then saves nothing; otherwise stores the sum and answers the event with its children |
| RepoEventService.EditBudget | src/services/event_service.py:63-69 | `None` for an unknown id; raises iff the new budget is negative; otherwise stores it and answers the event with its children |
| RepoEventService.ListingDisplayNamesDistinct | src/services/event_service.py:43 | no two entries of `list_events` share a display name |
| RepoEventService.QuietListenersAllCalled | src/services/event_service.py:15 | with no raising listener, `create` succeeds and each `event_created` listener is called once, in order, with the new event |
| RepoEventService.RaisingListenerKeepsEvent | src/services/event_service.py:13-15 | a raising listener makes `create` raise, yet the event is stored |
| RepoParticipantService.Create | src/services/participant_service.py:12-21 | a `None` event id raises the invalid-id error; an unknown event raises the not-found error; otherwise as the session-based `create` |
| RepoParticipantService.GetAttendees | src/services/participant_service.py:38-52 | `None` iff the event is unknown; otherwise one entry per participant of the event, each carrying its dictionary, its label and the event's name |
| RepoParticipantService.CreateAgreesWithSessionCreate | src/services/participant_service.py:12-18 | both `create`s write the same store; where the session layer answers `None` this one raises |
| RepoParticipantService.AttendeeDisplayNamesDistinct | src/services/participant_service.py:46 | no two attendees of an event share a display name |
| RepoSpeakerService.ListSpeakers | src/services/speaker_service.py:39-54 | `None` iff the event is unknown; otherwise one entry per speaker of the event, with its label and the event's name |
| RepoSpeakerService.ListingExtendsSessionListing | src/services/speaker_service.py:44-53 | dropping the two added keys gives the session-based listing |
| RepoSpeakerService.DisplayNamesDistinct | src/services/speaker_service.py:47 | no two speakers of an event share a display name |
| RepoVendorService.ListVendors | src/services/vendor_service.py:38-53 | `None` iff the event is unknown; otherwise one entry per vendor of the event, with its label and the event's name |
| RepoVendorService.ListingExtendsSessionListing | src/services/vendor_service.py:43-52 | dropping the two added keys gives the session-based listing |
| RepoVendorService.DisplayNamesDistinct | src/services/vendor_service.py:46 | no two vendors of an event share a display name |
| RepoFeedbackService.GetFeedback | src/services/feedback_service.py:35-49 | `None` iff the event is unknown; otherwise one entry per feedback of the event, labelled `"Feedback <id>"` and naming the event |
| RepoFeedbackService.LabelsDistinct | src/services/feedback_service.py:43 | no two feedback entries of an event share a label |
| LayerLaws.EventCreateSameWrite | src/services/event_service.py:11-16 | both layers' `create` store the same event under the same id, whatever the listeners do |
| LayerLaws.EventUpdateWithoutDateAgrees | src/services/event_service.py:18-29 | without a date, both layers' `update` write the same store and give the same answer, children included |
| LayerLaws.UnparsedDateOnlyStoredByRepository | src/services/event_service.py:24-25 | a date the parser refuses raises in the session layer and is stored verbatim by the repository layer |
| LayerLaws.BudgetWritesAgree | src/services/event_service.py:51-69 | both layers' budget operations write the same store and give the same answer |
| LayerLaws.FractionalNegativeBudgetStoresZero | src/services/event_service.py:26-27 | a budget of -0.5 is truncated to 0 before the setter, so it is accepted |
| LayerLaws.ConfCreated | services/event_service.py:7-19 | on an empty store, creating a valid event succeeds with the given budget and no participants |
| LayerLaws.AliceScenario | services/event_service.py:41-78 | in any valid store, for an event with budget 1000: a new participant joins, an overdraft is refused with no change, a smaller debit is stored, and deleting the event removes that participant's row |
| LayerLaws.DeletingOnlyEventClearsParticipants | models/event.py:15 | deleting the event all participants belong to leaves no participant |

## Left out

- Listing order: the queries have no `ORDER BY`. The model fixes the order as increasing id.
- `datetime.strptime(..., "%d-%m-%Y")` is a parameter (`EventService.DateParser`) that
  returns the stored date text or refuses. Calendar validation is not re-derived.
- The floating-point budget of src/models/event.py: budgets are integers in both
  layers. `int()` on a float is modelled (`Common.Truncate`). `int()` on a string,
  the `amount` of `update_budget` as a float, and a `None` budget (a `TypeError`)
  are not.
- Exception messages are modelled as the `Common.Error` kinds, not as text.
- Exhaustion or overflow of the `serial` sequences: ids are unbounded integers.
- The Flask controllers, the database scripts and the session factory: presentation
  and I/O.
- The repositories' own session handling and exception swallowing. A repository
  write is an atomic insert or overwrite. A failing call is modelled as leaving the
  store unchanged.
- Concurrency, including the race between the event lookup and the insert: the model
  is sequential.
- What the email and log listeners do, and their subscription at import time.
  Listeners are opaque values; a `raises` predicate says which of them raise.
- src/models/participant.py, speaker.py, vendor.py and feedback.py are not part of
  this model. Their entities are modelled by the models package's classes.
- RepoEventService.Committed: `add` commits, refreshes and closes its session. The model
  follows SQLAlchemy 1.4 and later, where `refresh` re-applies the loader options the
  instance was loaded with: an event read by `get_by_id` answers with its four
  collections, and a factory-built event (loaded with none) answers with empty lists
  because reading them on the closed session fails. Under earlier releases the answers
  of `update`, `update_budget` and `edit_budget` would carry empty lists too. The
  lazy-loading machinery itself is not modelled.
- EventService.Create, EventService.Update, EventService.UpdateBudget, EventService.EditBudget,
  RepoEventService.Create, RepoEventService.Update, RepoEventService.UpdateBudget and
  RepoEventService.EditBudget do not model the `int4` width of the `budget` column
  (create_table.py:39): a stored budget above 2147483647 would fail at commit, roll back
  and raise, while the model answers `Done`. Budgets are unbounded integers.
- ParticipantService.Create, ParticipantService.Update, SpeakerService.Create,
  SpeakerService.Update, VendorService.Create, VendorService.Update and
  RepoParticipantService.Create do not model the `varchar(255)` width of the children's
  `name`, `description` and `services` columns (create_table.py:56, 65-66, 75-76): a
  longer value would fail at commit and raise, while the model stores it. Text columns
  are unbounded strings.
- The cascade is stated once (`Storage.DeleteEventCascade`). The ORM's
  `delete-orphan` and the schema's `ON DELETE CASCADE` have the same effect here.
