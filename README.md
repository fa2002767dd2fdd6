# Lead-capture questionnaires, modelled in Dafny

This project models the part of the akrGroup marketing site that holds state:
the forms that collect leads and write them to the `quote_requests` and
`callback_requests` tables.

- `form_wizard.dfy` (module `Wizard`): the step wizard (`FormWizard`) and its `currentStep`. Next either advances or asks the host to submit; Back stops at step 0.
- `questionnaire.dfy` (module `Questionnaires`): one generic questionnaire engine. Its `Config` gives the initial `formData`, the fields each step edits, the fields each step requires, the write policy and the row mapping. A `Questionnaire` object holds a `FormWizard` and its `formData`.
- `energie.dfy`, `solaire.dfy` and `telecom.dfy`: the three configurations. Each has its `validateStep` switch written as in the source, with a contract saying it equals the generic per-step completeness test, a lemma that the wizard's `canProceed` is that switch, the row built on submit, and properties of its write policy. `telecom.dfy` also models `toggleService` on the service list.
- `callback.dfy` (module `Callback`): the "un expert vous rappelle" form and its `idle/loading/success/error` status.
- `jobs.dfy` (module `Jobs`): the job application page, with its `loading`/`success` flags and its admin summary.
- `site.dfy` (module `Site`): the home page's `activeForm`/`showSuccess` state. All three questionnaires stay mounted.
- `leads.dfy` (module `Leads`): the shared shapes (field values, `quote_requests` rows, write policies) and a model of the external table.

The backend's reply to a write is a parameter, `Ok` or `Err`. The current time is a parameter too.

The table model is an assumption about the external store: `insert` appends the row. `upsert` with an `onConflict` key drops every row with the same key and appends the new row.

The two halves of this assumption pull against each other. An `upsert` on `service_type,contact_phone` needs a unique index on those two columns in the real table. With such an index, a second energy, telecom or job `insert` with the same service and phone would be rejected rather than appended. The model keeps both halves because the write's outcome is a free parameter: a rejected insert is the `Err` outcome, which leaves the form and the table unchanged.

The engine's invariant (`Questionnaire.Valid`) is stronger than step-index bounds:

- A field can only be edited while the step that renders it is shown.
- Those per-step sets of fields are disjoint.
- Therefore every step before `currentStep` is complete.
- So a row reaches the store only from a `formData` in which every step is complete (`Questionnaire.ClickNext`).

Facts about the code that the model keeps as they are:

- The wizard forms keep no submission status and have no submitting guard. Only `canProceed` disables Next (`src/components/FormWizard.tsx:105`).
- Closing a wizard (the X button) only calls `onClose`. It does not clear the fields or reset the step. The forms stay mounted (`src/App.tsx:45-61`), so a reopened form shows its old step and answers.
- The energy questionnaire has six steps, with the required sets of `src/components/forms/EnergieForm.tsx:57-74`.
- The telecom form stores the postal code as typed; it does not turn `""` into null.

## Model

| member | source | states |
|---|---|---|
| Leads.OrNull | src/components/forms/EnergieForm.tsx:82-84 | `s \|\| null`: null exactly when the string is empty, the string itself otherwise |
| Leads.Unmatched | src/components/forms/SolaireForm.tsx:69-71 | the rows an upsert keeps are exactly the rows whose conflict key differs from the written row's, and no more rows than before |
| Leads.Write | src/components/forms/SolaireForm.tsx:60-71 | (store assumption) the written row ends the table and no other new row appears; an insert keeps every earlier row in order; an upsert keeps every row whose conflict key differs |
| Leads.UpsertLeavesOneRowPerKey | src/components/forms/SolaireForm.tsx:60-71 | after an upsert, the written row is the only row with its conflict key; rows with other keys are exactly those that were there before |
| Leads.UpsertTwiceKeepsSecond | src/components/forms/SolaireForm.tsx:60-71 | two upserts with the same conflict key leave the table as the second one alone would |
| Leads.InsertTwiceStoresTwo | src/components/forms/EnergieForm.tsx:78 | inserting the same row twice adds two copies of it |
| Leads.UpsertKeepsOtherServices | src/components/forms/SolaireForm.tsx:70 | when the conflict key includes `service_type`, an upsert never removes a row of another service |
| Wizard.AfterNext | src/components/FormWizard.tsx:26-32 | `handleNext`'s step: the same step exactly when it submits, otherwise one further; a step in range stays in range |
| Wizard.AfterPrev | src/components/FormWizard.tsx:34-38 | `handlePrev`'s step: one back above 0, unchanged at or below 0, never negative |
| Wizard.RunStaysInRange | src/components/FormWizard.tsx:23-38 | starting in range, any sequence of Next and Back presses keeps the step in `[0, totalSteps)` |
| Wizard.BackThenNext | src/components/FormWizard.tsx:26-38 | from any step but the first, Back then Next returns to the same step without submitting |
| Wizard.FormWizard.constructor | src/components/forms/EnergieForm.tsx:32 | the wizard starts on step 0 of its `totalSteps` |
| Wizard.FormWizard.StepLabel | src/components/FormWizard.tsx:64 | the header shows `currentStep + 1` out of `totalSteps` |
| Wizard.FormWizard.PrimaryLabel | src/components/FormWizard.tsx:108 | the button reads "Soumettre" exactly when Next would submit, and "Continuer" otherwise |
| Wizard.FormWizard.BackDisabled | src/components/FormWizard.tsx:96 | Back is disabled exactly where `handlePrev` would do nothing |
| Wizard.FormWizard.HandleNext | src/components/FormWizard.tsx:26-32 | before the last step: one step forward, no submit; on the last step: submit, step unchanged |
| Wizard.FormWizard.ClickNext | src/components/FormWizard.tsx:103-105 | a disabled Next (`!canProceed`) does nothing; an enabled one behaves as `handleNext` |
| Wizard.FormWizard.HandlePrev | src/components/FormWizard.tsx:34-38 | one step back when above 0; no change at 0 |
| Wizard.FormWizard.SetCurrentStep | src/components/forms/EnergieForm.tsx:32 | the host's setter stores any step in range |
| Questionnaires.EditElsewhereKeepsStep | src/components/forms/EnergieForm.tsx:53-74 | editing a field a step does not render leaves that step's completeness unchanged |
| Questionnaires.Questionnaire.CanProceed | src/components/forms/SolaireForm.tsx:287 | the flag is true exactly when every field the current step requires is filled; then every step up to the current one is complete, and on the last step the whole questionnaire is |
| Questionnaires.Questionnaire.constructor | src/components/forms/EnergieForm.tsx:32-51 | a mounted form is on step 0 with the initial `formData` |
| Questionnaires.Questionnaire.UpdateField | src/components/forms/EnergieForm.tsx:53-55 | the edited field takes the new value and every other field is unchanged; the invariant (earlier steps complete) is kept |
| Questionnaires.Questionnaire.HandleSubmit | src/components/forms/EnergieForm.tsx:76-115 | on success: the row built from `formData` is written with the form's policy, then the form returns to step 0 with empty fields; on error: table, step and fields unchanged |
| Questionnaires.Questionnaire.ClickNext | src/components/FormWizard.tsx:26-32 | blocked exactly when the step is incomplete; advances exactly when it is complete and not last; submits exactly when it is complete, last and the write succeeds; a submitted row comes from a `formData` with every step complete, and then the form is reset |
| Questionnaires.Questionnaire.ClickBack | src/components/FormWizard.tsx:34-38 | Back moves the form's step as `handlePrev` does; the fields are untouched and the invariant is kept |
| Questionnaires.BackThenNextReturns | src/components/FormWizard.tsx:26-38 | on a form, Back then Next from any step but the first is always let through: it advances back to the same step, with the answers and the table untouched |
| Energie.InitialData | src/components/forms/EnergieForm.tsx:33-51 | the 17 fields, each the empty string |
| Energie.ValidateStep | src/components/forms/EnergieForm.tsx:57-74 | the six-case switch passes exactly when every field the step requires is filled; any other index fails |
| Energie.CanProceedIsValidateStep | src/components/forms/EnergieForm.tsx:433 | on a mounted energy form, the wizard's `canProceed` is the truthiness of `validateStep()` on the current step |
| Energie.OptionalFieldsNeverGate | src/components/forms/EnergieForm.tsx:57-74 | email and postal code never change whether a step can be left |
| Energie.BuildRow | src/components/forms/EnergieForm.tsx:78-85 | `service_type` "energie", the full `formData`, name and phone copied, email and postal code null when empty, no status or timestamp |
| Energie.Mount | src/components/forms/EnergieForm.tsx:31-51 | a fresh energy form with the energy configuration (fields, step sets, `insert`, row mapping): step 0, empty fields |
| Energie.CompleteRowNamesContact | src/components/forms/EnergieForm.tsx:69-70 | a row built from a store in which every step is complete has a non-empty name and phone |
| Energie.ResubmitAppends | src/components/forms/EnergieForm.tsx:78 | submitting the same answers twice stores two rows |
| Solaire.InitialData | src/components/forms/SolaireForm.tsx:27-39 | the 11 fields, each the empty string |
| Solaire.ValidateStep | src/components/forms/SolaireForm.tsx:45-56 | the three-case switch passes exactly when every field the step requires is filled; any other index fails |
| Solaire.CanProceedIsValidateStep | src/components/forms/SolaireForm.tsx:287 | on a mounted solar form, the wizard's `canProceed` is `!!validateStep()` on the current step |
| Solaire.BuildRow | src/components/forms/SolaireForm.tsx:60-68 | `service_type` "solaire", name and phone copied, email and postal code null when empty, status "pending", `updated_at` the given time |
| Solaire.Mount | src/components/forms/SolaireForm.tsx:26-39 | a fresh solar form with the solar configuration (fields, step sets, `upsert` on (`service_type`, `contact_phone`), row mapping): step 0, empty fields |
| Solaire.ResubmitSamePhoneReplaces | src/components/forms/SolaireForm.tsx:69-71 | a second solar submission with the same phone replaces the first instead of adding a row |
| Solaire.SubmissionIsOnlyRowForPhone | src/components/forms/SolaireForm.tsx:60-71 | after a solar submission, the submitted row is the only solar row for that phone, and rows of other services are kept |
| Solaire.CompleteRowNamesContact | src/components/forms/SolaireForm.tsx:51-52 | a row built from a store in which every step is complete has a non-empty name and phone |
| Telecom.InitialData | src/components/forms/TelecomForm.tsx:22-29 | five empty strings and an empty service list |
| Telecom.ValidateStep | src/components/forms/TelecomForm.tsx:42-51 | on telecom-shaped stores, the switch (with `services.length > 0`) passes exactly when every field the step requires is filled; any other index fails |
| Telecom.CanProceedIsValidateStep | src/components/forms/TelecomForm.tsx:180 | on a mounted telecom form, the wizard's `canProceed` is `!!validateStep()` on the current step |
| Telecom.Without | src/components/forms/TelecomForm.tsx:37 | `filter(x => x !== s)`: `s` is gone and every other entry keeps its multiplicity |
| Telecom.WithoutAppend | src/components/forms/TelecomForm.tsx:37 | the filter distributes over concatenation, so the kept entries stay in order |
| Telecom.WithoutAbsent | src/components/forms/TelecomForm.tsx:37 | filtering out an absent service gives back the list |
| Telecom.WithoutKeepsDistinct | src/components/forms/TelecomForm.tsx:37 | filtering keeps a duplicate-free list duplicate-free |
| Telecom.Toggled | src/components/forms/TelecomForm.tsx:36-38 | the toggled list holds the service exactly when the old one did not; a present service loses every copy, an absent one gains one copy; other entries keep their multiplicities |
| Telecom.ToggleAbsentAppends | src/components/forms/TelecomForm.tsx:36-38 | toggling an absent service keeps the list and appends the service at the end |
| Telecom.TogglePresentRemoves | src/components/forms/TelecomForm.tsx:36-37 | toggling a present service removes every occurrence and keeps the others in order, with their multiplicities |
| Telecom.ToggleFlipsOnlyS | src/components/forms/TelecomForm.tsx:35-40 | a toggle flips the membership of the toggled service and of no other |
| Telecom.ToggleTwiceRestores | src/components/forms/TelecomForm.tsx:35-40 | toggling an absent service twice restores the list |
| Telecom.ToggleKeepsDistinct | src/components/forms/TelecomForm.tsx:35-40 | a toggle keeps a duplicate-free list duplicate-free |
| Telecom.ToggleService | src/components/forms/TelecomForm.tsx:35-40 | on step 0, `toggleService` writes the toggled list through `updateField`, keeping the form invariant |
| Telecom.BuildRow | src/components/forms/TelecomForm.tsx:55-62 | `service_type` "telecom", name and phone copied, email null when empty, postal code verbatim, no status or timestamp |
| Telecom.Mount | src/components/forms/TelecomForm.tsx:21-29 | a fresh telecom form with the telecom configuration (fields, step sets, `insert`, row mapping): step 0, empty fields |
| Telecom.CompleteRowHasPostalCode | src/components/forms/TelecomForm.tsx:47 | a row built from a store in which every step is complete carries a non-empty postal code, name and phone |
| Callback.Complete | src/components/CallbackForm.tsx:54-84 | the three `required` inputs: the form can be sent exactly when name, email and phone are all non-empty |
| Callback.Disabled | src/components/CallbackForm.tsx:91 | the button is enabled exactly in `idle` and `error` |
| Callback.Next | src/components/CallbackForm.tsx:13-32 | a press moves to `loading` exactly when the button is enabled and otherwise changes nothing; a reply is consumed only in `loading`, where it settles on `success` if there was no error and on `error` otherwise; `success` is final |
| Callback.With | src/components/CallbackForm.tsx:59 | an input's `onChange` sets its own field and no other |
| Callback.SuccessIsFinal | src/components/CallbackForm.tsx:91 | once the write has succeeded, no sequence of events leaves `success` or sends another write |
| Callback.AtMostOneInFlight | src/components/CallbackForm.tsx:91 | over any sequence of events, the writes sent equal the replies the form consumes, plus one exactly while a write is pending |
| Callback.BuildRow | src/components/CallbackForm.tsx:18-24 | the `callback_requests` row: the three fields, status "pending", `created_at` the given time |
| Callback.CallbackForm.constructor | src/components/CallbackForm.tsx:6-11 | status `idle`, all three fields empty |
| Callback.CallbackForm.Edit | src/components/CallbackForm.tsx:56-59 | an input edit changes only its own field and not the status |
| Callback.CallbackForm.Submit | src/components/CallbackForm.tsx:13-24 | a write is sent exactly when the button is enabled and all three fields are filled; it carries the current fields and sets `loading` |
| Callback.CallbackForm.WriteReturned | src/components/CallbackForm.tsx:26-32 | no error: `success` and the fields cleared; error: `error` and the fields kept |
| Jobs.Complete | src/pages/JobPage.tsx:115-181 | the `required` inputs: every input but the CV text must be non-empty |
| Jobs.ContactName | src/pages/JobPage.tsx:35 | first name, one space, last name; both parts can be read back |
| Jobs.AdminData | src/pages/JobPage.tsx:25-30 | keys Nom, Prénom, Âge and Info CV; the first three are copied; Info CV is the CV text, or "Non renseigné" when that is empty, so never empty |
| Jobs.BuildRow | src/pages/JobPage.tsx:32-39 | `service_type` "job", the admin summary, the combined name, the phone, no email or postal code, status "pending", `updated_at` the given time |
| Jobs.RowNameSplits | src/pages/JobPage.tsx:35 | the row's name column splits back into first and last name |
| Jobs.JobPage.constructor | src/pages/JobPage.tsx:10-18 | five empty fields, not loading, no success |
| Jobs.JobPage.HandleChange | src/pages/JobPage.tsx:53-55 | only the named input's field changes |
| Jobs.JobPage.Submit | src/pages/JobPage.tsx:20-39 | a write is sent exactly when the form is shown, not loading, and the four required fields are filled; it carries the row built from the fields, which becomes the pending write, and sets `loading` |
| Jobs.JobPage.WriteReturned | src/pages/JobPage.tsx:32-50 | on no error the pending row is inserted into `quote_requests` and `success` is set; on error the table is unchanged; `loading` cleared either way; fields never cleared |
| Site.App.constructor | src/App.tsx:13-15 | no dialog open, no success screen, around the three mounted forms |
| Site.Launch | src/App.tsx:45-61 | loading the page mounts three distinct forms, each with its own configuration, on step 0 with empty fields |
| Site.App.HandleServiceClick | src/App.tsx:17-19 | the clicked service becomes the active form; the success screen is untouched |
| Site.App.HandleFormClose | src/App.tsx:21-23 | no form is active; nothing in the forms changes |
| Site.App.HandleFormSuccess | src/App.tsx:25-27 | the success screen shows; the active form is untouched |
| Site.App.CloseSuccessScreen | src/App.tsx:65 | the success screen hides; the active form is untouched |
| Site.App.PressNext | src/App.tsx:45-61 | Next acts on the open form only. The press is blocked exactly when the form cannot proceed; it advances exactly when the form can proceed and is not on its last step; it submits exactly when the form can proceed, is on its last step and the write succeeds, and then every step was complete. An advance moves it one step with its answers kept; a blocked press or a failed write leaves it as it was; after a successful submission the row is written, the success screen shows, the dialog closes and that form is back at step 0 with empty fields; with no form open nothing happens |
| Site.App.PressBack | src/App.tsx:45-61 | Back moves only the open form's step |
| Site.AtMostOneOpen | src/App.tsx:46-58 | at most one questionnaire is open at a time |
| Site.CloseThenReopenKeepsAnswers | src/App.tsx:45-61 | closing a form and opening it again finds its step and answers unchanged |

## Left out

- Rendering is not modelled: JSX, Tailwind classes, framer-motion animations and the progress-bar percentage (`src/components/FormWizard.tsx:24`, floating point, display only).
- The Supabase client is not modelled. Each write returns a chosen `Ok` or `Err`. The table behaviour of `insert` and `upsert` (`Leads.Write`) is an assumption about the external store, not its real semantics.
- The callback form's `upsert` has no conflict key, so the model stops at the row it sends (`Callback.BuildRow`). The `callback_requests` table is not modelled.
- `new Date().toISOString()` is not modelled; the timestamp is a parameter.
- `alert`, `console.error`, `window.scrollTo` and `navigate` are not modelled. They change no state the model tracks.
- Concurrency of the awaited writes is not modelled. A wizard submission is one atomic step whose outcome is a parameter. Because the wizards have no submitting guard, the real page could send a second write while one is pending; the model does not capture that. The callback and job forms are modelled in two phases (send, then reply) because their `loading` guard is real.
- Browser validation (`required`, `type="email"`, `type="number"`) is not modelled as format checking. `required` becomes the `Complete` test on submit.
- `Questionnaires.Questionnaire.UpdateField` assumes that an input edits only a field its own step renders. This is how the forms are laid out, not a check the source makes. The model also leaves out the window during a step change: `AnimatePresence mode="wait"` keyed on `currentStep` (`src/components/FormWizard.tsx:80-88`) keeps the previous step's inputs mounted through their 0.3 s exit, and an edit made there writes a field of a step that is no longer shown.
- `Site.App.constructor` takes the three mounted forms as arguments. `Site.Launch` does the mounting, since React mounts the children when the page loads.
- The header's language toggle, the hero, services, features, mission, footer and success-screen components, the Tailwind config and the i18n config are presentational and are not part of this model.
