# BotBazzar front-end scripts, modelled in Dafny

This project models the behaviour of the four scripts behind the BotBazzar
landing page and proves properties of that model.

- **scripts/animations.js.** The `AnimationController` entrance effects:
  - fade, slide and scale observers that replay on every intersecting entry;
  - stagger groups that fire once;
  - count-up counters, the typewriter, the morphing orbs and the orb parallax.

  It also holds `AnimationUtils`: the three easing curves, the frame-driven
  `animate` tween and the `shake` keyframes.
- **scripts/main.js.** The page handlers:
  - the navbar 'scrolled' class;
  - the 'aos-animate' observer and the second copy of the count-up;
  - the testimonial slider: index arithmetic, the 'active' classes, swipes and the auto-advance interval;
  - the pricing toggle and its price tween;
  - feature-card delays and the hero parallax;
  - the footer information modal.
- **scripts/chatbot.js.** The demo chatbot:
  - `generateResponse`'s reply choice: response keys first, then keywords, then a random fallback;
  - the message list that `addMessage`, `showTypingIndicator` and `hideTypingIndicator` change in place;
  - the send paths.
- **scripts/form.js.** The contact form:
  - the per-field rules and the `fields` table that validation updates in place;
  - `updateFieldUI` and `clearFieldError`, and `validateForm`;
  - the `isSubmitting` guard of `handleSubmit`, the success modal and `resetForm`;
  - `ValidationHelpers`.

The code follows the scripts' own form.

- **Pure helpers become functions with lemmas.** Examples: the easing
  curves, the index arithmetic, the validators and the reply choice.
- **Objects whose state the scripts change become classes.** These are the
  slider, the chatbot widget, the contact form, the observers, the
  typewriter, the morph animation and the information modal. Their methods
  carry `modifies` clauses.
- **Loops stay loops.** The `requestAnimationFrame` and `setTimeout`
  re-entries (the tween, the price tween, the count-up) and the `forEach` and
  `for … of` loops become `while` and `for` loops with invariants. Each loop
  is proved against a function that specifies it.

Host inputs become parameters:

- the clock is a sequence of elapsed times;
- `Math.random` is a roll in [0, 1);
- IntersectionObserver entries are a sequence of entries;
- scroll offsets and touch coordinates are numbers.

Modules:

| module | file | models |
|---|---|---|
| Wrappers | wrappers.dfy | `Option` |
| Strings | strings.dfy | `\s`, `trim`, `toLowerCase`, `includes` |
| Styles | styles.dfy | the CSS transforms written |
| Easing | easing.dfy | `easeIn`, `easeOut`, `easeInOut` |
| Tween | tween.dfy | `animate`, `animatePrice` and the pricing toggle, `shake` |
| Visibility | visibility.dfy | the observe-once-then-unobserve pattern |
| Entrance | entrance.dfy | fade, slide and scale observers; stagger groups |
| Continuous | continuous.dfy | count-up, typewriter, morph, parallax |
| Slider | slider.dfy | `initTestimonialSlider` |
| Page | page.dfy | navbar, hero parallax, feature delays, aos, footer modal |
| Chatbot | chatbot.dfy | `ChatbotDemo` |
| ContactForm | contact_form.dfy | `ContactForm`, `ValidationHelpers` |

## Model

| member | source | states |
|---|---|---|
| Strings.Trim | scripts/form.js:58 | The trimmed value is no longer than the input and neither starts nor ends with a `\s` character |
| Strings.TrimIsSlice | scripts/form.js:58 | `trim` removes exactly a whitespace prefix and a whitespace suffix: the result is the slice between them |
| Strings.TrimEmpty | scripts/chatbot.js:82-83 | A trimmed message is empty exactly when the input is all whitespace, which is when `handleSendMessage` sends nothing |
| Strings.TrimIdempotent | scripts/form.js:58 | Trimming an already trimmed value changes nothing |
| Strings.LowerPointwise | scripts/chatbot.js:110 | Without U+0130, `toLowerCase` maps each character on its own and keeps the length |
| Strings.LowerIdempotent | scripts/chatbot.js:110-115 | Lower-casing the already lower-cased message again changes nothing |
| Strings.ContainsSelf | scripts/chatbot.js:115 | Every string includes itself |
| Strings.ContainsKeepsChars | scripts/chatbot.js:145 | A substring found by `includes` has no character the message lacks |
| Strings.ContainsLength | scripts/chatbot.js:115 | A string found by `includes` is no longer than the message, and one of equal length is the message |
| Strings.Utf16Length | scripts/form.js:66 | `length` counts between one and two units per character |
| Strings.Utf16 | scripts/animations.js:277-278 | The code units `charAt` indexes: one per character up to U+FFFF, a surrogate pair above, as many as `Utf16Length` counts |
| Strings.Utf16Bmp | scripts/animations.js:277-278 | Text without characters above U+FFFF has one code unit per character, equal to it |
| Strings.Utf16Astral | scripts/animations.js:277-278 | A character above U+FFFF becomes a high surrogate followed by a low surrogate |
| Easing.Endpoints | scripts/animations.js:339-341 | Each of `easeIn`, `easeOut` and `easeInOut` maps 0 to 0 and 1 to 1 |
| Easing.InOutMeetsAtHalf | scripts/animations.js:339 | The two branches of `easeInOut` agree at t = 0.5, where the curve is 0.5 |
| Easing.InUnitRange | scripts/animations.js:339-341 | On [0, 1] every curve stays in [0, 1] |
| Easing.InMonotone | scripts/animations.js:341 | `easeIn` is non-decreasing for non-negative t |
| Easing.OutMonotone | scripts/animations.js:340 | `easeOut` is non-decreasing up to its peak at t = 1 |
| Easing.InOutMonotone | scripts/animations.js:339 | `easeInOut` is non-decreasing on [0, 1], across the branch point |
| Easing.Monotone | scripts/animations.js:339-341 | No curve ever goes backwards on [0, 1] |
| Tween.Progress | scripts/animations.js:355 | Progress never exceeds 1, equals 1 exactly once the duration has elapsed, and is non-negative for non-negative elapsed time |
| Tween.Frame | scripts/animations.js:358-364 | A frame writes exactly the properties passed in |
| Tween.FrameAtEnd | scripts/animations.js:355-364 | At full progress every property is written with exactly its end value |
| Tween.FrameBetween | scripts/animations.js:358-364 | At any progress in [0, 1] each written value lies between that property's start and end values |
| Tween.Animate | scripts/animations.js:344-372 | One frame per clock entry until the first entry at or past the duration; all earlier entries are below it. The last write is that frame's `Frame`, and once the duration is reached every property sits on its end value |
| Tween.Round | scripts/main.js:217 | `Math.round` returns the integer within half a unit, with halves rounded up |
| Tween.PriceBetween | scripts/main.js:216-217 | Every price frame lies between the two end prices |
| Tween.AnimatePrice | scripts/main.js:198-226 | The first frame runs at once, then one frame per clock entry while progress is below 1. With both `data-monthly` and `data-yearly` parsed, each shown price lies between the end prices and the last one shown after 500 ms is exactly the target; if either does not parse, every frame shows NaN |
| Tween.ToggleTween | scripts/main.js:194-206 | The tween ends on the yearly price when checked and on the monthly price otherwise, and always runs between those two, parsed or not |
| Tween.ToggleReverses | scripts/main.js:201-205 | Flipping the toggle back tweens the same two prices in the opposite direction |
| Tween.ShakeKeyframes | scripts/animations.js:375-389 | Six horizontal keyframes that start and end at rest and alternate -intensity and +intensity in between |
| Visibility.FiredWereObserved | scripts/animations.js:250-258 | Only observed targets fire, a fired target is no longer observed, and the observed set only shrinks |
| Visibility.FiresAtMostOnce | scripts/animations.js:250-258 | Over any stream of entries no target fires twice |
| Visibility.FiresWhenSeen | scripts/animations.js:289-296 | An observed target that is ever reported intersecting fires |
| Visibility.UnobservedNeverFires | scripts/main.js:99-106 | A target that is not (or no longer) observed never fires |
| Visibility.NothingFiresWhenNothingObserved | scripts/animations.js:104-117 | An observer with nothing left to observe fires for nothing |
| Visibility.OneShotObserver.constructor | scripts/animations.js:260 | The observer starts out observing exactly the given targets |
| Visibility.OneShotObserver.Deliver | scripts/main.js:100-105 | A callback fires exactly for an intersecting, still observed target and unobserves just that target |
| Visibility.OneShotObserver.DeliverAll | scripts/main.js:99-106 | Delivering entries one by one fires `Fired` and leaves `StillObserved` |
| Entrance.SlideFrom | scripts/animations.js:56-61 | 'right' starts 50px right, 'up' 50px low, 'down' 50px high, and any other direction 50px left |
| Entrance.StartStyle | scripts/animations.js:38-88 | The synchronous style of every effect is fully transparent and displaced |
| Entrance.RevealOf | scripts/animations.js:38-88 | Each handler schedules, after 100, 150 or 200 ms, a reveal of its own target to full opacity with no displacement |
| Entrance.RevealPerIntersectingEntry | scripts/animations.js:38-88 | With no unobserve, each intersecting entry schedules exactly one reveal, and every reveal ends opaque and in place |
| Entrance.HiddenEntriesAreIgnored | scripts/animations.js:38-88 | Entries that do not intersect change no style and schedule nothing |
| Entrance.SeenElementsRestart | scripts/animations.js:53-73 | Every element reported intersecting is reset to the start style (a replay) |
| Entrance.RestyledKeeps | scripts/animations.js:38-88 | An element no entry reports intersecting keeps its style |
| Entrance.RevealFinishes | scripts/animations.js:75-88 | A started element whose reveal fires is opaque and in place, with the handler's transition still set |
| Entrance.EntranceObserver.constructor | scripts/animations.js:25-32 | An observer starts with the page's styles and no pending timers |
| Entrance.EntranceObserver.HandleEntries | scripts/animations.js:38-88 | A batch restyles as `Restyled` and appends one reveal per intersecting entry |
| Entrance.EntranceObserver.FireNext | scripts/animations.js:45-48 | The oldest timer applies its reveal and leaves the queue |
| Entrance.StaggerDelay | scripts/animations.js:96 | A non-zero parsed `data-stagger` is the delay; a missing, unparsable or zero one gives 100, so the delay is never 0 |
| Entrance.Schedule | scripts/animations.js:107-113 | A group schedules one reveal per child |
| Entrance.ScheduleIsEvenlySpaced | scripts/animations.js:107-113 | The `setTimeout` delays follow document order: the first is 0 and each later one is `delay` more than the previous, so with a positive `delay` later children are revealed strictly later |
| Entrance.StaggerGroup.constructor | scripts/animations.js:94-102 | Every child starts hidden, 20px low, with animation delay i × delay |
| Entrance.StaggerGroup.OnEntry | scripts/animations.js:104-117 | The first intersecting entry schedules every child and unobserves the group; any other entry does nothing |
| Entrance.StaggerGroup.Fire | scripts/animations.js:108-112 | A child's timer gives exactly that child the 0.6s transition, full opacity and no offset |
| Entrance.GroupFiresAtMostOnce | scripts/animations.js:104-119 | A group schedules its children at most once over any stream of entries |
| Continuous.CountedBelow | scripts/animations.js:237-245 | Before frame 125 the floored running value of a positive target is in [0, target) |
| Continuous.CountedGrows | scripts/animations.js:237-245 | The floored running value never decreases |
| Continuous.CountUp | scripts/animations.js:233-248 | The frame loop writes exactly the closed-form sequence `CountUpWrites`, including NaN for an unparsable target |
| Continuous.CountUpPositive | scripts/main.js:80-97 | A positive target takes 125 frames. It shows non-decreasing numbers below the target and ends exactly on it |
| Continuous.CountUpNonPositive | scripts/main.js:86-93 | A target of zero or below is written once, exactly |
| Continuous.OnCounterEntry | scripts/animations.js:250-258 | An intersecting, observed counter counts up from its `data-count` and is unobserved; otherwise nothing is written |
| Continuous.TypedPrefix | scripts/animations.js:276-286 | After k calls the element shows the first min(k, length) UTF-16 code units of the text, and the caret blinks until call length + 1 |
| Continuous.TypingSplitsSurrogates | scripts/animations.js:276-286 | For "Hi 👋" typing takes five steps, and after the fourth the element shows half of the emoji's surrogate pair |
| Continuous.TypingStops | scripts/animations.js:276-286 | Once the whole text is shown, later calls change nothing and the caret is off |
| Continuous.Typewriter.constructor | scripts/animations.js:267-273 | Captures the text as its UTF-16 code units, clears the element, shows the caret, and reads the speed as `parseInt(...) \|\| 100` |
| Continuous.Typewriter.OnEntry | scripts/animations.js:289-296 | The first intersecting entry schedules typing after 500 ms and unobserves |
| Continuous.Typewriter.TypeText | scripts/animations.js:276-286 | Each call appends one code unit (`charAt`) and reschedules after `speed` ms until the text is exhausted |
| Continuous.MorphDurationsIncrease | scripts/animations.js:314-318 | Orb i cycles in 8000 + 2000·i ms, so later orbs are strictly slower |
| Continuous.MorphCycleCloses | scripts/animations.js:307-312 | The four border-radius keyframes start and end on the round shape, so the infinite iterations join without a jump |
| Continuous.Morph.constructor | scripts/animations.js:306-318 | The morph starts playing at time 0 with the four keyframes and its orb's duration |
| Continuous.Morph.OnEntry | scripts/animations.js:321-329 | It plays exactly while intersecting; pausing keeps the current time |
| Continuous.Morph.Elapse | scripts/animations.js:321-329 | Time advances only while playing |
| Continuous.OrbsMoveAtTheirRate | scripts/animations.js:221-224 | Orb i moves (i + 1) times as far as the first, and, scrolled down, later orbs move further up |
| Continuous.OnScroll | scripts/animations.js:218-226 | Each scroll sets every orb's transform from the current scroll offset alone |
| Slider.JsRem | scripts/main.js:132 | JavaScript `%` agrees with the mathematical remainder on non-negative operands |
| Slider.NextStaysInRange | scripts/main.js:131-134 | With at least one card, the next index is in range and the last card wraps to the first |
| Slider.PrevNextInverse | scripts/main.js:131-174 | Swiping back undoes advancing and advancing undoes swiping back, on every card index |
| Slider.ActiveAfterShow | scripts/main.js:120-129 | After `showSlide`, at most one index is active: the shown one, when both its card and its dot exist |
| Slider.SwipeOf | scripts/main.js:165-176 | A drag over 50px leftwards goes forward, one over 50px rightwards goes back, and anything else stays |
| Slider.TimersStayFresh | scripts/main.js:136-144 | Stopping and starting keep every stored and running id below the next one, and a start adds a new id to the running ones |
| Slider.RestartKeepsSingle | scripts/main.js:136-144 | Stop clears the single interval, and stop-then-start leaves exactly one running, the stored one |
| Slider.TwoFingerTouchLeaksInterval | scripts/main.js:160-179 | As written, two touchstarts followed by two touchends leave two intervals running |
| Slider.TestimonialSlider.constructor | scripts/main.js:182-185 | Index 0, and an auto-advance interval only with more than one card: exactly the stored one then, none otherwise, so the slider starts with a single interval at most |
| Slider.TestimonialSlider.ShowSlide | scripts/main.js:120-129 | Records the index and marks exactly `ActiveAfterShow` on cards and dots |
| Slider.TestimonialSlider.NextSlide | scripts/main.js:131-134 | Moves to `Next` and marks it |
| Slider.TestimonialSlider.ClickDot | scripts/main.js:147-153 | Shows slide k and stops then starts the interval; a single running interval stays single |
| Slider.TestimonialSlider.TouchStart | scripts/main.js:160-163 | Records the touch origin and stops the interval; the slide is unchanged |
| Slider.TestimonialSlider.Swipe | scripts/main.js:166-176 | Moves forward, back or not at all by the drag distance; the intervals are untouched |
| Slider.TestimonialSlider.TouchEnd | scripts/main.js:165-179 | As written: swipes, then starts a new interval without clearing the stored one, so one more interval runs afterwards |
| Slider.TestimonialSlider.TouchEndFixed | scripts/main.js:165-179 | Corrected: swipes, then stops and starts the interval; a single running interval stays single |
| Page.NavbarClasses | scripts/main.js:46-52 | 'scrolled' is present exactly above 50px; no other class changes |
| Page.NavbarFollowsLatestScroll | scripts/main.js:46-52 | Only the latest scroll event decides the navbar's classes |
| Page.HeroMovesLikeFirstOrb | scripts/main.js:259-267 | The hero background offset equals the first orb's, is upward when scrolled down, and scales linearly |
| Page.HeroTransform | scripts/main.js:259-267 | With a hero background its transform is set from the scroll; without one nothing changes |
| Page.AssignFeatureDelays | scripts/main.js:252-256 | Card i gets order i and an animation delay of i tenths of a second |
| Page.FeatureDelaysStagger | scripts/main.js:253-256 | Later cards start strictly later, exactly a tenth of a second per position |
| Page.AosOnlyAdds | scripts/main.js:62-68 | 'aos-animate' is never removed. An element carries it exactly when it had it already or some entry saw it intersecting |
| Page.AosObserver.constructor | scripts/main.js:62-73 | No element is animated at set-up |
| Page.AosObserver.HandleEntries | scripts/main.js:62-68 | A batch adds the class exactly as `AosAnimated` |
| Page.ModalTitle | scripts/main.js:305-618 | Exactly the ten own keys of `modalContent` have content, each with a non-empty title |
| Page.ModalLookup | scripts/main.js:638-650 | `modalContent[key]` finds the ten own keys with their titles and, through `Object.prototype`, the inherited names such as "constructor", whose title reads "undefined"; any other key finds nothing |
| Page.InfoModal.constructor | scripts/main.js:621-630 | The modal starts hidden with scrolling free; it is wired only when all three elements exist |
| Page.InfoModal.ClickTrigger | scripts/main.js:633-663 | An own key shows its content, and an inherited name such as "constructor" shows an "undefined" title; either opens the modal and locks scrolling. Any other key changes nothing |
| Page.InfoModal.Close | scripts/main.js:666-671 | Closing hides the modal and frees scrolling; the body keeps its content |
| Page.InfoModal.ClickClose | scripts/main.js:674-678 | The X button closes a wired modal |
| Page.InfoModal.ClickModal | scripts/main.js:681-685 | A click closes the modal only when it lands on the backdrop itself |
| Page.InfoModal.KeyDown | scripts/main.js:688-692 | Escape closes the modal only while it is active; other keys do nothing |
| Chatbot.Lookup | scripts/chatbot.js:11-25 | `responses[key]` is defined exactly for the thirteen keys and then gives that key's reply |
| Chatbot.LookupFrom | scripts/chatbot.js:11-25 | The same, over the entries from a given position on |
| Chatbot.FirstMatchFrom | scripts/chatbot.js:114-119 | The result is the earliest entry whose text occurs in the message, and None exactly when none occurs |
| Chatbot.FirstMatchIs | scripts/chatbot.js:114-119 | An occurring entry with no earlier occurring entry is the one found |
| Chatbot.FindFirst | scripts/chatbot.js:144-149 | The `for … of` loop with its `break` returns exactly `FirstMatch` |
| Chatbot.FallbackIndex | scripts/chatbot.js:154 | `Math.floor(Math.random() * 4)` always indexes a fallback |
| Chatbot.GenerateResponse | scripts/chatbot.js:109-158 | The two searches and the fallback together compute exactly `Respond` |
| Chatbot.KeywordTargetsExist | scripts/chatbot.js:123-142 | Every keyword points at a key that `responses` has, so a keyword's reply is never undefined |
| Chatbot.ResponseKeyWins | scripts/chatbot.js:113-119 | A message containing response key i, and no earlier one, gets key i's reply |
| Chatbot.KeywordWins | scripts/chatbot.js:121-150 | With no response key in the message, the first keyword found decides the reply |
| Chatbot.FallbackWhenNothingMatches | scripts/chatbot.js:152-155 | With no key and no keyword in the message, the reply is the fallback the roll picks |
| Chatbot.ShadowedKeywordsNeverDecide | scripts/chatbot.js:113-150 | The keywords 'demo', 'contact', 'support' and 'help' can never decide, because the response key of the same name is found first |
| Chatbot.StoredRepliesAreNotFallbacks | scripts/chatbot.js:11-32 | No stored reply is a fallback |
| Chatbot.MatchedReplyIsStored | scripts/chatbot.js:109-158 | When a key or keyword matches, the reply is a stored one and never a fallback |
| Chatbot.EarlierQuestionAbsent | scripts/chatbot.js:12-17 | No earlier question key occurs inside a later one, once both are lower-cased |
| Chatbot.QuestionsAnswerThemselves | scripts/chatbot.js:109-119 | Each of the six questions, sent as written, gets its own reply |
| Chatbot.DottedCapitalIAnswersHi | scripts/chatbot.js:110-119 | "H" followed by U+0130 lower-cases to "hi" and a combining dot, so it gets the reply of the key 'hi' |
| Chatbot.KelvinSignAnswersWork | scripts/chatbot.js:110-150 | "wor" followed by U+212A KELVIN SIGN lower-cases to "work"; no key occurs in it, so the keyword 'work' gives the 'How does it work?' reply |
| Chatbot.AppendItem | scripts/chatbot.js:190-191 | Appending an entry appends it to the conversation, or adds one typing indicator |
| Chatbot.WithoutTyping | scripts/chatbot.js:241-246 | Hiding removes one typing indicator if there is one, leaves the conversation intact, and changes nothing otherwise |
| Chatbot.ChatbotDemo.constructor | scripts/chatbot.js:37-47 | With the window present, the typing indicator is shown and the greeting scheduled; without it nothing happens |
| Chatbot.ChatbotDemo.ShowTypingIndicator | scripts/chatbot.js:208-239 | At most one indicator: one is appended only when none exists and the container does |
| Chatbot.ChatbotDemo.HideTypingIndicator | scripts/chatbot.js:241-246 | The indicator is removed and the conversation kept |
| Chatbot.ChatbotDemo.AddMessage | scripts/chatbot.js:160-206 | Exactly one entry is appended at the end, when the container exists |
| Chatbot.ChatbotDemo.Greet | scripts/chatbot.js:43-46 | The indicator goes and the greeting is appended; the input, the pending replies and the quick replies are untouched |
| Chatbot.ChatbotDemo.SendMessage | scripts/chatbot.js:90-107 | Shows the user's message, hides the quick replies, shows one indicator and schedules the reply |
| Chatbot.ChatbotDemo.HandleSendMessage | scripts/chatbot.js:81-100 | Sends the trimmed input and clears it: the message is appended, the quick replies are hidden, one indicator shows and the reply is queued. A blank input changes nothing |
| Chatbot.ChatbotDemo.ClickQuickReply | scripts/chatbot.js:71-78 | A quick reply sends its message untrimmed: appended, quick replies hidden, one indicator, reply queued. Without the quick-reply buttons nothing changes |
| Chatbot.ChatbotDemo.DeliverReply | scripts/chatbot.js:103-106 | A reply timer removes the indicator, appends `Respond` for its message and drops it from the queue; the input and the quick replies are untouched |
| ContactForm.EmailShape | scripts/form.js:311-314 | The email pattern accepts exactly the strings without whitespace that have a single '@', not first, followed later (not directly) by a '.' that is not last |
| ContactForm.PhoneShape | scripts/form.js:320-323 | A valid phone number has at least ten characters, and '+' can only be its first |
| ContactForm.StripAngles | scripts/form.js:326 | No '<' or '>' remains, and a string without any is unchanged |
| ContactForm.StripAnglesKeepsOthers | scripts/form.js:326 | Every other character is kept as often as it occurs |
| ContactForm.StripAnglesAppend | scripts/form.js:326 | Stripping a concatenation concatenates the stripped parts, so the kept characters stay in order |
| ContactForm.Sanitize | scripts/form.js:325-327 | The result is no longer than the input and has no '<' or '>' |
| ContactForm.SanitizeNotIdempotent | scripts/form.js:325-327 | Sanitizing "< a" gives " a", and sanitizing that again gives "a" |
| ContactForm.KeyListed | scripts/form.js:20 | Every field key is one of the four bound |
| ContactForm.KeyName | scripts/form.js:20-27 | Each field's element id is one of the four names |
| ContactForm.KeyOf | scripts/form.js:54-56 | A field name selects the entry whose id it is, or none |
| ContactForm.KeyOfKeyName | scripts/form.js:64-85 | Each field's own name selects it, so no field falls outside the switch |
| ContactForm.NoticeText | scripts/form.js:64-85 | The error text is empty exactly for a valid value |
| ContactForm.NoticeFor | scripts/form.js:64-85 | A rejected value always gets a non-empty message |
| ContactForm.AcceptsEmail | scripts/form.js:70-72 | The 'email' case accepts exactly the `EmailShaped` values |
| ContactForm.WithFieldUI | scripts/form.js:93-109 | Both marks are removed. A non-empty value gets exactly the mark that fits and, with an error element, the message. Other classes are kept |
| ContactForm.Validated | scripts/form.js:54-91 | The stored value is the trimmed input |
| ContactForm.Checked | scripts/form.js:58-90 | The given value is stored |
| ContactForm.ValidatedMarks | scripts/form.js:54-109 | After validation the entry is valid iff its rule accepts the trimmed value. A blank entry has no mark, any other has exactly the mark that fits, and an invalid one shows its message |
| ContactForm.Cleared | scripts/form.js:111-121 | Only the 'error' mark and its message are removed |
| ContactForm.ResetField | scripts/form.js:244-260 | The entry is emptied, invalid and unmarked, with no error text |
| ContactForm.ValidatedIdempotent | scripts/form.js:54-91 | Validating twice is validating once |
| ContactForm.ResetThenValidateUnmarked | scripts/form.js:244-260 | A reset field, validated again, carries no mark |
| ContactForm.ContactForm.constructor | scripts/form.js:19-35 | One empty, invalid entry per input present, and none without the form |
| ContactForm.ContactForm.ValidateField | scripts/form.js:54-91 | Returns false and changes nothing for a field without an entry. Otherwise only that entry becomes `Validated`, and its validity is returned |
| ContactForm.ContactForm.ClearFieldError | scripts/form.js:111-121 | Only that entry is cleared |
| ContactForm.ContactForm.ValidateForm | scripts/form.js:123-133 | Every entry is validated (no short-circuit), and the result is true exactly when all entries are valid |
| ContactForm.ContactForm.PayloadOf | scripts/form.js:152-166 | The payload exists exactly when all four entries do, and it carries their stored values |
| ContactForm.ContactForm.Submit | scripts/form.js:136-158 | Ignored exactly while a send is in progress. Otherwise any invalid field forces a rejection with the guard down, and an all-valid form raises the guard and sends the payload of the validated values, or fails when an entry is missing |
| ContactForm.ContactForm.FinishSubmit | scripts/form.js:168-178 | The guard drops, and the success modal opens exactly when the send succeeded |
| ContactForm.ContactForm.ResetForm | scripts/form.js:244-260 | Every entry becomes `ResetField` of itself; the keys are unchanged |
| ContactForm.ContactForm.CloseSuccess | scripts/form.js:218-241 | Closing the success modal hides it and resets every entry |

## Left out

**Platform features not modelled**

- Reply, greeting and modal texts: they are not reproduced. Replies are named by a `Reply` value per `responses` entry, and the greeting is one `Greeting` entry. A modal's content is represented by its title only.
- Floating point: numbers are exact reals or integers, not IEEE doubles. `toLocaleString` and the text formatting of numbers are left out.
- `toLowerCase`: the model lower-cases the characters whose lower case contains an ASCII letter. These are A-Z, U+212A KELVIN SIGN (to 'k') and U+0130 (to 'i' followed by U+0307). Every other character keeps its case in the model. Its lower case in the script is again not ASCII, so no key or keyword, all ASCII, can match differently.
- Web Animations timing and CSS:
  - `element.animate` timing for shake, pulse and morph: only the keyframes, durations and play/pause are modelled;
  - the injected CSS and the CSS transitions themselves.
- The hover, press and focus micro-interactions (animations.js:138-212): they only write fixed transforms.
- `debounce`, `throttle` and `pulse`: no core code calls them.
- `AnimationController` set-up and per-element independence:
  - the controller's set-up calls (`init`, the `querySelectorAll` scans) are represented by the constructors;
  - several elements of one kind are modelled as independent instances.
- Network, modal and alert side effects:
  - `emailjs.send`, `alert`, `console.error`, the toasts, `shakeForm` and the loading state of the submit button;
  - the success toast;
  - `simulateFormSubmission`, which nothing calls.

  The outcome of the two sends is the `sent` argument of `FinishSubmit`.
- Navigation and icons: the mobile menu, smooth scrolling of nav links and pricing buttons, `preventDefaultHashLinks` and the Lucide icon calls. These only call browser scrolling or class toggles with nothing to prove.
- IntersectionObserver batching and thresholds:
  - entries are delivered one at a time;
  - a batch that still holds an entry for a target unobserved earlier in the same batch is not modelled;
  - the thresholds and root margins only decide when the host reports an entry.
- The second writer for the same element:
  - both count-up copies watch the same `[data-count]` elements;
  - `.gradient-orb` transforms are written both by the parallax and by the morph;
  - two quick flips of the pricing toggle start two `animatePrice` loops that write the same `.price-amount` until the first one ends.

  Each effect is modelled on its own.

**Simplifications of specific behaviour**

- The typewriter caret's `borderRight` and `animation` are one boolean, `caret`.
- Chatbot.ChatbotDemo.ClickQuickReply: a quick-reply button without `data-message` sends `null`, which is not modelled. The message is a string.
- Chatbot.ChatbotDemo.DeliverReply: the random 1–2 s delay is not modelled. Any pending reply may be delivered next, which covers every order the delays allow.
- ContactForm.ResetField: `form.reset()` is assumed to empty every input. A `<select>` would go back to its default option.
- ContactForm.ContactForm.FinishSubmit: the success modal is assumed present. Without `#successModal`, `showSuccess` does nothing.
- ContactForm.ContactForm.Submit: the payload is read once. The script reads the fields again for the second send, after the first `await`; nothing can change them in between except user input events, which are not interleaved here.
- ContactForm.ContactForm.ValidateForm: the order in which `Object.keys` visits the entries is not modelled. Each step touches only its own entry, so the final state is the same in any order.
- ContactForm.ContactForm.ValidateField: it is called with a `Key` rather than a string. A name that is not one of the four is one `KeyOf` maps to None, and it has no entry. An entry missing from the table gives false with nothing changed, as in the script.
- Tween.Animate: it requires a positive duration. A zero duration makes progress NaN in the script (or Infinity for a positive elapsed time), and the model does not represent this. Nothing in the scripts calls `animate`; a zero duration is excluded.

## Findings

| source | as written | input that shows it | evidently intended | confidence | as-written member | corrected member |
|---|---|---|---|---|---|---|
| scripts/main.js:165-179 | `touchend` calls `startAutoSlide` without clearing the stored interval, and `touchstart` clears only the stored one | two `touchstart` events then two `touchend` events (a two-finger touch): the first new interval's id is overwritten by the second, so two intervals run and the slides advance twice per period | at most one auto-advance interval at a time: clear the stored interval before starting a new one | medium, not executed | Slider.TwoFingerTouchLeaksInterval | Slider.TestimonialSlider.TouchEndFixed |
