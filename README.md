# Parent-teacher portal: a verified model of the page logic

The portal is a Next.js/React front end through which parents talk to
teachers, schedule appointments, read notifications, browse shared
resources and manage their settings. All data is sample data held in React
state; there is no back end. This project models the logic behind those
pages and proves what it promises:

- **Messages** (`messages.dfy`, module `Messages`).
  - Canned replies: the first rule in the table with a keyword that occurs in the lower-cased message gives the reply; otherwise the default reply.
  - Initials of a new contact.
  - The "add contact" and "send message" handlers.
  - The delayed reply, as a separate step.
- **Calendar** (`calendar.dfy`, module `Calendar`).
  - The events of the selected day.
  - Appointment submission, with its field checks and fresh ids.
  - Deletion with undo.
  - Date selection.
  - The rule that disables past days.
- **Notifications** (`notifications.dfy`, module `Notifications`).
  - Mark one notification read, mark all read, delete.
  - The unread counter.
  - The five tabs.
- **Settings** (`settings.dfy`, module `Settings`).
  - The feedback and password validators.
  - Their submit handlers.
  - Their per-field change handlers.
- **Resources** (`resources.dfy`, module `Resources`).
  - The case-insensitive substring search.
  - The per-type tabs.
- **Sidebar** (`sidebar.dfy`, module `Sidebar`).
  - The `isOpen`/`isMobile` state driven by the window width.
  - The toggle, which only acts on a mobile layout.
  - The error raised by `useSidebar` outside its provider.
- **Support modules** (`text.dfy`, `lists.dfy`, `wrappers.dfy`).
  - JavaScript's `trim`, `toLowerCase`, `toUpperCase`, `includes` and `split`, with their properties.
  - `Array.prototype.filter` and `map` over sequences, with subsequence lemmas.
  - `Option` and `Result`.

## How the model is built

**Pages with state.** Each page whose handlers update React state is a
class. The class fields are that page's state variables, and each handler
is a method whose `ensures` gives the whole new state. A handler that
builds a new list with `map` or `filter` is specified by a pure function,
and the lemmas about the page are proved on that function.

**Validators.** The settings validators build their error record step by
step and keep an `isValid` flag, as the source does. So they are methods
with local updates. Their contracts tie them to the predicates
`FeedbackAcceptable` and `PasswordAcceptable`.

**Things the page gets from outside.** The clock, the timestamp ids and
the window width become parameters:
- `time` labels for messages;
- `id` for a new contact;
- `today`, the day string for the calendar;
- `now` and `instant` in milliseconds for the disabled-day rule;
- `innerWidth` for the sidebar.

**The delayed reply.** The reply is sent by a 1.5-second timer, so it is a
separate method, `DeliverReply`. `SendMessage` returns what the timer's
callback captures: the id `length + 2`, the name of the selected
conversation, and the text sent.

**Behaviour worth noting** (the model follows the code):
- Initials come from `split(" ")`, which splits on single spaces only. An empty piece, from a run of spaces or a leading or trailing space, contributes no character.
- Clicking a conversation selects it but does not load its thread. `messages` stays what it was.
- The appointment checks (`!newAppointment.teacher` and so on) do not trim. A field holding only spaces passes.
- The password checks do not trim either. The feedback checks do.
- The 10- and 8-character minimums of the settings forms count UTF-16 code units, as JavaScript's `length` does: a character above U+FFFF, such as an emoji, counts twice.

## Model

| member | source | states |
|---|---|---|
| Messages.FirstMatchFrom | app/messages/page.tsx:192-196 | The index returned is the first rule at or after `from` with a keyword in the message; `None` means no rule from `from` on matches |
| Messages.Reply | app/messages/page.tsx:188-200 | `generateReply` as a function: the reply is always the default text or the response of some rule; `ReplyIsFirstMatch` says which |
| Messages.GenerateReply | app/messages/page.tsx:188-200 | The loop over the rules returns the reply of the first matching rule, or the default reply |
| Messages.ReplyIsFirstMatch | app/messages/page.tsx:188-200 | For the first rule whose keyword occurs in the lower-cased message, the reply is that rule's response; when no rule matches, it is the default reply |
| Messages.GreetingWins | app/messages/page.tsx:86-90 | Any greeting keyword in the message selects the greeting, whatever else the message contains |
| Messages.ReplyByRule | app/messages/page.tsx:192-196 | A keyword of rule i, with no keyword of an earlier rule present, selects rule i's response |
| Messages.ReplyByDefault | app/messages/page.tsx:198-199 | A message containing no keyword gets the default reply |
| Messages.HelloThereHasHello | app/messages/page.tsx:189 | "Hello there!" lower-cased contains "hello" |
| Messages.ReplyGreetsCapitalisedHello | app/messages/page.tsx:189-194 | "Hello there!" gets the greeting: matching ignores case |
| Messages.IsThisRightHasHi | app/messages/page.tsx:193 | "is this right?" contains "hi" inside "this" |
| Messages.ReplyMatchesInsideWords | app/messages/page.tsx:193 | "Is this right?" gets the greeting: matching is by substring, not by word |
| Messages.MeetingRequestMissesGreetings | app/messages/page.tsx:87-89 | No greeting keyword ("hello", "hi", "hey", "greetings") occurs in the lower-cased "Can we schedule a meeting?" |
| Messages.MeetingRequestMissesProjects | app/messages/page.tsx:91-94 | No project keyword ("project", "assignment", "homework") occurs in the lower-cased meeting request |
| Messages.MeetingRequestMissesGrades | app/messages/page.tsx:96-99 | No grade keyword ("grade", "score", "marks", "performance") occurs in the lower-cased meeting request |
| Messages.ReplyToMeetingRequest | app/messages/page.tsx:100-103 | "Can we schedule a meeting?" gets the meeting reply, because the first three rules do not match |
| Messages.OkMissesEveryKeyword | app/messages/page.tsx:86-109 | No keyword of any rule occurs in "ok" |
| Messages.ReplyToOk | app/messages/page.tsx:198-199 | "OK" gets the default reply |
| Messages.HeadsOfSplit | app/messages/page.tsx:136-139 | The first characters of the pieces of `split(" ")`, empty pieces giving nothing, are exactly the non-space characters at the start of a word |
| Messages.InitialsOf | app/messages/page.tsx:136-141 | The initials have at most two characters: the first two upper-cased word starts, or all of them when there are fewer |
| Messages.JaneDoeWordStarts | app/messages/page.tsx:136-139 | The word starts of "Jane Doe" are "JD" |
| Messages.InitialsOfJaneDoe | app/messages/page.tsx:136-141 | "Jane Doe" gets the initials "JD" |
| Messages.WordStartsHaveNoSpace | app/messages/page.tsx:137-138 | No word start is a space |
| Messages.InitialsHaveNoSpace | app/messages/page.tsx:136-141 | Initials never contain a space |
| Messages.NewConversation | app/messages/page.tsx:143-152 | The new conversation's fields: the given id and name; role "Staff" when none was given, so the role is never empty; initials of at most two characters; "No messages yet"; "Just now"; not unread |
| Messages.WithPreview | app/messages/page.tsx:218-221 | The list keeps its length and order. Only conversations with the selected id get the new preview and "Just now"; every other field and every other conversation is unchanged |
| Messages.PreviewKeepsSelection | app/messages/page.tsx:218-228 | The previewed selection is one of the updated conversations |
| Messages.Inbox.constructor | app/messages/page.tsx:113-122 | The initial conversations, the first one selected, the sample thread, and empty form fields |
| Messages.Inbox.EditContactName | app/messages/page.tsx:289-291 | The name changes; the form error is cleared only when the new name is not blank |
| Messages.Inbox.EditContactRole | app/messages/page.tsx:306 | Only the role of the form changes |
| Messages.Inbox.EditMessage | app/messages/page.tsx:462 | The message being typed changes |
| Messages.Inbox.SelectConversation | app/messages/page.tsx:344-346 | The clicked conversation becomes the selection, and the thread is left alone |
| Messages.Inbox.AddContact | app/messages/page.tsx:125-176 | A blank name sets "Name is required" and changes nothing else. Otherwise one new conversation goes in front of the unchanged old list and is selected; the thread is emptied and the form reset |
| Messages.Inbox.SendMessage | app/messages/page.tsx:202-231 | A blank message changes nothing and schedules no reply. Otherwise one message from "You" is appended, with id `length + 1` and the untrimmed text; the box is cleared; the preview of the selected conversation is updated in the list and in the selection; the typing indicator is on; the reply is scheduled with id `length + 2` |
| Messages.Inbox.DeliverReply | app/messages/page.tsx:234-246 | Exactly one message is appended: from the conversation captured at send time, not from the user, with the id captured then and `generateReply` of the sent text as its content; the typing indicator is off |
| Calendar.EventsOn | app/calendar/page.tsx:145-157 | `filteredEvents`: no events without a date, otherwise the filter on the day string; specified by `EventsOnSelectsTheDay` |
| Calendar.EventsOnSelectsTheDay | app/calendar/page.tsx:145-157 | Without a date the view is empty. With one, it is a subsequence of the events that holds every event of that day and only those |
| Calendar.CheckAppointment | app/calendar/page.tsx:195-213 | The first empty field in the order teacher, date, time, reason is reported; none is reported exactly when all four are filled |
| Calendar.MeetingEvent | app/calendar/page.tsx:216-223 | The event a submission creates: the given id, "Meeting with " and the teacher as title, the form's date and time, "School", the reason as description |
| Calendar.MaxId | app/calendar/page.tsx:217 | The largest id of a non-empty list: no id exceeds it and some event has it |
| Calendar.NextEventId | app/calendar/page.tsx:217 | The new id exceeds every existing id. It is 1 for an empty list and otherwise one more than an existing id |
| Calendar.PrependFreshKeepsUnique | app/calendar/page.tsx:216-226 | Putting the new meeting in front of a list with unique ids keeps the ids unique |
| Calendar.FindById | app/calendar/page.tsx:242 | `None` exactly when no event has the id; otherwise an event of the list with that id |
| Calendar.Without | app/calendar/page.tsx:248 | The list after deletion, `filter(e => e.id !== id)`; specified by `WithoutRemovesExactly` |
| Calendar.WithoutRemovesExactly | app/calendar/page.tsx:247 | Deletion gives a subsequence of the list that has no event with the id and every event with another id, as many times as it occurs. When no event has the id, the list is unchanged |
| Calendar.WithoutKeepsUnique | app/calendar/page.tsx:247 | Deleting keeps ids unique |
| Calendar.UndoRestoresEvents | app/calendar/page.tsx:241-256 | With unique ids, deleting an event and appending it back by undo gives the original multiset of events |
| Calendar.UndoAfterRescheduleDuplicatesId | app/calendar/page.tsx:216-256 | Deleting event 3, scheduling a meeting (which takes the freed id 3) and then undoing the deletion leaves two events with id 3 |
| Calendar.IsDisabled | app/calendar/page.tsx:307-312 | The `disabled` rule, `date < today` at midnight; specified by `DisabledIffEarlierDay` |
| Calendar.DisabledIffEarlierDay | app/calendar/page.tsx:307-312 | An instant is disabled exactly when its day is earlier than today's |
| Calendar.TodayIsEnabled | app/calendar/page.tsx:307-312 | Any instant from the start of today on is enabled |
| Calendar.CalendarPage.constructor | app/calendar/page.tsx:130-142 | Today is selected, the sample events are shown, no event is selected, and the form is empty with today's date |
| Calendar.CalendarPage.SelectDate | app/calendar/page.tsx:175-190 | The date is set and the selected event cleared; a defined date is copied into the form |
| Calendar.CalendarPage.EditTeacher | app/calendar/page.tsx:361 | Only the teacher field of the form changes |
| Calendar.CalendarPage.EditDraftDate | app/calendar/page.tsx:374 | Only the date field of the form changes |
| Calendar.CalendarPage.EditTime | app/calendar/page.tsx:386 | Only the time field of the form changes |
| Calendar.CalendarPage.EditReason | app/calendar/page.tsx:398 | Only the reason field of the form changes |
| Calendar.CalendarPage.SubmitAppointment | app/calendar/page.tsx:193-238 | On a missing field nothing changes. Otherwise "Meeting with" the teacher, at "School", goes in front under an id above every old id, and the form is reset to the selected day (or today). Unique ids stay unique |
| Calendar.CalendarPage.DeleteEvent | app/calendar/page.tsx:241-262 | Returns the event found by id for the undo. If there is one, every event with that id is removed; otherwise nothing changes. Unique ids stay unique |
| Calendar.CalendarPage.Undo | app/calendar/page.tsx:254-257 | The removed event is appended at the end |
| Notifications.MarkRead | app/notifications/page.tsx:105-111 | Same length. Each notification is read afterwards exactly when it was read before or has the id, and no other field changes |
| Notifications.Delete | app/notifications/page.tsx:113-115 | The list after `deleteNotification`; specified by `DeleteRemovesExactly` and `DeleteKeepsUnique` |
| Notifications.MarkAllRead | app/notifications/page.tsx:117-119 | The list after `markAllAsRead`; specified by `MarkAllReadClears` |
| Notifications.UnreadCount | app/notifications/page.tsx:121 | `unreadCount`; specified by `UnreadCountIsCount` and `UnreadCountBounds` |
| Notifications.UnreadCountIsCount | app/notifications/page.tsx:121 | The counter equals the number of unread notifications, counted one at a time |
| Notifications.UnreadCountBounds | app/notifications/page.tsx:121 | The counter never exceeds the list length and is zero exactly when every notification is read |
| Notifications.MarkReadAbsent | app/notifications/page.tsx:105-111 | Marking an id that no notification has changes nothing |
| Notifications.MarkReadCount | app/notifications/page.tsx:105-111 | With unique ids, the count of unread notifications drops by one when an unread notification has the id, and otherwise stays the same |
| Notifications.MarkReadUnreadCount | app/notifications/page.tsx:105-121 | With unique ids, marking an unread notification lowers the badge by exactly one; marking a read one leaves it alone |
| Notifications.DeleteRemovesExactly | app/notifications/page.tsx:113-115 | Deletion gives a subsequence that has no notification with the id and every notification with another id, as many times as it occurs. An absent id changes nothing |
| Notifications.DeleteKeepsUnique | app/notifications/page.tsx:113-115 | Deleting keeps ids unique, so the unique-id premise of `MarkReadUnreadCount` survives deletions |
| Notifications.MarkAllReadClears | app/notifications/page.tsx:117-121 | Same length; every notification is read and no other field changes; the counter is zero; doing it again changes nothing |
| Notifications.TabView | app/notifications/page.tsx:162-265 | The list each tab shows; specified by `TabViewSelects` |
| Notifications.TabViewSelects | app/notifications/page.tsx:162-265 | Each tab lists a subsequence of the notifications: every one of them (all), the unread ones, or those of its type, and all of those |
| Notifications.NotificationCenter.constructor | app/notifications/page.tsx:102-103 | The sample notifications and the "all" tab |
| Notifications.NotificationCenter.SelectTab | app/notifications/page.tsx:142 | The tab changes |
| Notifications.NotificationCenter.MarkAsRead | app/notifications/page.tsx:105-111 | The list becomes `MarkRead` of the old list; unique ids stay unique |
| Notifications.NotificationCenter.DeleteNotification | app/notifications/page.tsx:113-115 | The list becomes the old list without the id; unique ids stay unique |
| Notifications.NotificationCenter.MarkAllAsRead | app/notifications/page.tsx:117-119 | Every notification is marked read and the badge shows zero |
| Settings.CheckFeedback | app/settings/page.tsx:81-103 | Valid exactly when the trimmed subject is non-empty and the trimmed message has at least 10 UTF-16 code units, and exactly when no error is set; the errors are `FeedbackErrorsOf` the form. The subject and message errors are computed independently; a blank message is "required", not "too short" |
| Settings.FeedbackErrorsOf | app/settings/page.tsx:81-103 | No error exactly when the form is acceptable; a subject error exactly when the subject is blank; a message error exactly when the trimmed message is shorter than 10 UTF-16 code units |
| Settings.BlankFeedbackReportsBoth | app/settings/page.tsx:88-95 | A blank subject and a blank message are both reported as required |
| Settings.CheckPassword | app/settings/page.tsx:156-191 | Valid exactly when, untrimmed, the current password is non-empty, the new one is non-empty with at least 8 UTF-16 code units, and the confirmation is non-empty and equal to it. Valid exactly when no error is set; the errors are `PasswordErrorsOf` the form, checked independently field by field |
| Settings.PasswordErrorsOf | app/settings/page.tsx:156-191 | No error exactly when the form is acceptable; the general error is always empty; a current-password error exactly when it is empty; a new-password error exactly when it is shorter than 8 UTF-16 code units; a confirmation error exactly when it is empty or differs from the new password |
| Settings.EmojiPasswordLongEnough | app/settings/page.tsx:175 | "123456" followed by an emoji has JavaScript length 8, and a form with it as new and confirmed password is accepted |
| Settings.ShortAndMismatched | app/settings/page.tsx:172-187 | A short new password and a different confirmation are both reported |
| Settings.SettingsPage.constructor | app/settings/page.tsx:18-49 | Empty password form, default feedback form, no errors, no banners |
| Settings.SettingsPage.ChangeFeedback | app/settings/page.tsx:51-65 | Only the edited field of the feedback form changes, and only that field's error is cleared |
| Settings.SettingsPage.SetFeedbackType | app/settings/page.tsx:74-79 | Only the feedback type changes |
| Settings.SettingsPage.SetAnonymous | app/settings/page.tsx:67-72 | Only the anonymous switch changes |
| Settings.SettingsPage.ValidateFeedback | app/settings/page.tsx:81-103 | The stored errors are those of the form; the result says whether the form is acceptable |
| Settings.SettingsPage.SubmitFeedback | app/settings/page.tsx:105-128 | An invalid form keeps its contents and shows its errors. A valid one is reset to the defaults and the banner is shown |
| Settings.SettingsPage.ChangePassword | app/settings/page.tsx:140-154 | Only the edited field of the password form changes, and only that field's error is cleared |
| Settings.SettingsPage.ValidatePassword | app/settings/page.tsx:156-191 | The stored errors are `PasswordErrorsOf` the form; the result says whether the form is acceptable |
| Settings.SettingsPage.SubmitPassword | app/settings/page.tsx:193-215 | The stored errors are those of the submitted form. An invalid form keeps its contents. A valid one is cleared and the banner is shown |
| Resources.Search | app/resources/page.tsx:99-104 | `filteredResources`; specified by `SearchSelects` and the lemmas after it |
| Resources.SearchSelects | app/resources/page.tsx:99-104 | The result is a subsequence of the resources. A resource is in it exactly when the lower-cased query occurs in its lower-cased title, description or subject |
| Resources.EmptyQueryKeepsAll | app/resources/page.tsx:99-104 | An empty query lists every resource, in order |
| Resources.SearchIgnoresCase | app/resources/page.tsx:101-103 | Queries equal up to letter case find the same resources |
| Resources.SearchLowered | app/resources/page.tsx:101-103 | Lower-casing the query does not change the result |
| Resources.SearchMonotone | app/resources/page.tsx:99-104 | When the longer query contains the shorter one, its result is a subsequence of the shorter one's |
| Resources.TabView | app/resources/page.tsx:140-207 | The list each tab shows; specified by `TabViewSelects` |
| Resources.TabViewSelects | app/resources/page.tsx:140-207 | The first tab is the whole search result. Each type tab is a subsequence of it holding exactly the results of that type |
| Resources.TabViewMembership | app/resources/page.tsx:99-104 | A resource is in a type tab exactly when it is a resource, matches the query and has the tab's type |
| Sidebar.AfterResize | components/sidebar-provider.tsx:21-31 | Mobile exactly when the width is below 1024, and open exactly when not mobile |
| Sidebar.Toggle | components/sidebar-provider.tsx:43-48 | Never changes `isMobile`. It flips `isOpen` on a mobile layout and changes nothing otherwise |
| Sidebar.ToggleTwice | components/sidebar-provider.tsx:43-48 | Two toggles restore the state |
| Sidebar.DesktopAlwaysOpen | components/sidebar-provider.tsx:16-48 | On a wide window the sidebar is open: initially, after every resize, and after every toggle |
| Sidebar.UseSidebar | components/sidebar-provider.tsx:53-58 | Fails, with the message "useSidebar must be used within a SidebarProvider", exactly when there is no provider; otherwise returns the provider's value |
| Sidebar.SidebarProvider.constructor | components/sidebar-provider.tsx:16-17 | Open and not mobile |
| Sidebar.SidebarProvider.CheckMobile | components/sidebar-provider.tsx:21-31 | Mobile exactly when the width is below 1024; open exactly when not mobile |
| Sidebar.SidebarProvider.ToggleSidebar | components/sidebar-provider.tsx:43-48 | Flips `isOpen` only on a mobile layout; `isMobile` never changes; keeps the sidebar open on a wide window |
| Text.Utf16Length | app/settings/page.tsx:96 | JavaScript's `length`: between the number of characters and twice that, and equal to it when no character is above U+FFFF |
| Text.TrimStart | app/settings/page.tsx:88 | The result is a suffix of the input. Everything dropped is whitespace, and the result does not start with whitespace |
| Text.TrimEnd | app/settings/page.tsx:88 | The result is a prefix of the input. Everything dropped is whitespace, and the result does not end with whitespace |
| Text.Trim | app/settings/page.tsx:88 | `trim()`, the composition of `TrimStart` and `TrimEnd`; specified by their contracts and `TrimHasNoOuterWhitespace` |
| Text.IsBlank | app/messages/page.tsx:129 | `!s.trim()`; specified by `BlankIffAllWhitespace` |
| Text.BlankIffAllWhitespace | app/messages/page.tsx:129 | `!s.trim()` holds exactly when every character is whitespace |
| Text.TrimHasNoOuterWhitespace | app/settings/page.tsx:96 | A non-empty trimmed string starts and ends with non-whitespace |
| Text.Lower | app/messages/page.tsx:189 | Same length, and each character is lower-cased |
| Text.Upper | app/messages/page.tsx:140 | Same length, and each character is upper-cased |
| Text.Includes | app/messages/page.tsx:193 | `includes`; specified by `IncludesIff` |
| Text.IncludesFromIff | app/messages/page.tsx:193 | `includes` from position i holds exactly when the key occurs at some position from i on |
| Text.IncludesIff | app/messages/page.tsx:193 | `includes` holds exactly when the key occurs somewhere |
| Text.IncludesAt | app/messages/page.tsx:193 | An occurrence at a position is an inclusion |
| Text.MissingCharExcludes | app/messages/page.tsx:193 | A string lacking a character of the key does not include the key |
| Text.SingleAnchorExcludes | app/messages/page.tsx:193 | A key whose character occurs only once in the string is included only where that character lines up |
| Text.IncludesSelf | app/resources/page.tsx:101 | Every string includes itself |
| Text.IncludesTransitive | app/resources/page.tsx:101-103 | Inclusion is transitive |
| Text.IncludesLower | app/resources/page.tsx:101-103 | Lower-casing both sides keeps an inclusion |
| Text.Split | app/messages/page.tsx:137 | At least one piece, and no piece contains the separator |
| Text.SplitJoin | app/messages/page.tsx:137 | Joining the pieces with the separator gives back the string |
| Lists.Filter | app/notifications/page.tsx:114 | No longer than the list. Every element kept is in the list and satisfies the predicate, and every element that satisfies it is kept |
| Lists.Map | app/notifications/page.tsx:118 | Same length, and each element is the function applied to the element at the same position |
| Lists.SubsequenceReflexive | app/notifications/page.tsx:163 | A list is a subsequence of itself |
| Lists.SubsequenceTransitive | app/resources/page.tsx:158-159 | Subsequence is transitive |
| Lists.FilterIsSubsequence | app/notifications/page.tsx:114 | A filter keeps the order: it is a subsequence of the list |
| Lists.FilterCongruent | app/resources/page.tsx:99-104 | Predicates that agree on the list give the same filter |
| Lists.FilterMonotone | app/resources/page.tsx:99-104 | A stronger predicate gives a subsequence of the weaker one's filter |
| Lists.FilterKeepsAll | app/notifications/page.tsx:114 | A predicate true everywhere keeps the whole list |
| Lists.FilterEmptyIff | app/notifications/page.tsx:121 | A filter is empty exactly when nothing satisfies the predicate |
| Lists.FilterAppend | app/notifications/page.tsx:114 | Filtering distributes over concatenation |
| Lists.FilterCounts | app/notifications/page.tsx:114 | The filter keeps every copy of an element that satisfies the predicate and no copy of one that does not |
| Lists.FilterDropsOne | app/calendar/page.tsx:247 | When only the element at k fails the predicate, the filter is the list without that element |
| Lists.MoveToEnd | app/calendar/page.tsx:255 | Moving an element to the end keeps the multiset |
| Lists.SubsequenceKeepsDistinct | app/calendar/page.tsx:247 | A subsequence of a list whose keys are distinct has distinct keys; with the id as key, deletion keeps ids unique on both pages |
| Lists.SubsequenceElements | app/calendar/page.tsx:247 | Every element of a subsequence is an element of the list |

## Left out

- Rendering: JSX, layout, CSS, dialogs and their open flags (`dialogOpen`, `showAppointmentForm`), the mobile view switches (`showConversations`, `showCalendar`), `contactAdded`, and scrolling. None of these affect the modelled state.
- Timers. The 1.5-second reply is modelled as an explicit later step. The 3-second banners that reset `feedbackSubmitted` and `passwordSubmitted` are not modelled. Two sends before a reply lands can give two messages the same id `length + 2`, so message ids are not claimed unique.
- Clock, locale and time zones: `Date.now()` ids, `toLocaleTimeString`, `toLocaleDateString`, and the `toISOString().split("T")[0]` day strings, including the shift to UTC they cause. Days are plain strings, times are labels, and the disabled-day rule works on integer milliseconds of local time.
- `Messages.InitialsOf`, `Text.Lower`, `Text.Upper`: case mapping is ASCII only, and `name[0]` is taken as one character, not one UTF-16 code unit. Full Unicode `toUpperCase` can change a string's length.
- `alert` and the `sonner` toasts. These are browser calls. A refused appointment is a returned `SubmitError`; the undo action is the `Undo` method.
- The window `resize` listener and its clean-up. `CheckMobile` is the listener's body, called with the width.
- The `toggleSidebar` callback reads `isMobile` from the render that created it. The model reads the current field.
- The settings profile and preferences forms and their banners, which only switch a flag on and off with a timer, and the settings tab state.
- Calendar.EventsOn: `filteredEvents` returns no events when `toISOString` throws on an event's date (app/calendar/page.tsx:148-156). Day strings here are always well formed, so the model has no such failure and does not empty the view for it. The date picker and the sample events never give such a date.
- The card components: `EventCard`'s delete confirmation dialog and `ResourceCard`'s download button are presentation; the button has no handler.
- `components/optimized-image.tsx`, `components/sidebar.tsx`, `components/page-header.tsx`, `app/layout.tsx`, `app/page.tsx` and `app/students/page.tsx` hold static content or presentation only, and are not part of this model.
