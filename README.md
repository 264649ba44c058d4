# FreshPlate recipe editor and sign-in screen, modelled in Dafny

This project models two React screens of the FreshPlate web client as state machines and
proves what their event handlers do.

The **edit-recipe screen** (`EditRecipe.jsx`) works like this:

- It loads one recipe by the `id` query parameter.
- It shows a spinner, an error or the edit form.
- It lets the user edit text fields and pick a new image.
- On submit it serialises the whole recipe object into multipart form parts and sends them to `update`.

The **sign-in screen** (`Signin.jsx`) works like this:

- It keeps the `values` record.
- It posts the non-empty credentials.
- On an error reply it shows the error. On success it stores the session and redirects to where the user came from.

The network calls, `auth.isAuthenticated()`, `auth.authenticate` and `URL.createObjectURL` are
inputs. Each handler takes the answer it would have awaited as a parameter. It runs as one step,
with submit split at its `await`. Each screen class logs the requests it made, the object URLs it
minted and the navigations it scheduled.

Modules:

- `Wrappers`: `Option`.
- `Base64`: the base 64 encoding of section 4 of RFC 4648. The image preview uses it to turn a stored byte buffer into a `data:` URL. It has a strict decoder and proves round trips both ways.
- `Records`: a JavaScript object as an entry list in insertion order with distinct keys. It provides property access and object spread `{ ...r, [k]: v }`, which overwrites an existing key in place and appends a new one.
- `FormPayload`: the submit serialiser. It is a loop over `Object.keys(recipe)` that appends parts. An `image` that is a picked `File` becomes an `image` part, a `null` image becomes `deleteImage` = `"true"`, and any other image value sends nothing. Every other key becomes a text part.
- `EditRecipe`: the screen's pure pieces (preview URL, view choice, submit notification) and the class `EditRecipeScreen` with one method per handler.
- `Signin`: the request builder, reply handling, redirect target, view choice and the class `SigninScreen`.

The load step replaces the whole recipe with what the server sent. So any extra keys the server
includes go back on submit as text parts, in the server's key order, and a stored `null` image
goes back as the `deleteImage` flag (`EditRecipe.SubmitUnchanged`). A record that has its own
`deleteImage` key next to a `null` image sends `deleteImage` twice (`FormPayload.DeleteFlagCount`).

## Model

| member | source | states |
|---|---|---|
| Base64.DecodeEncode | FreshPlate-testing/FreshPlate/client/recipe/EditRecipe.jsx:74 | decoding the base 64 text of any byte sequence gives back exactly those bytes |
| Base64.EncodeDecode | FreshPlate-testing/FreshPlate/client/recipe/EditRecipe.jsx:74 | every text the strict decoder accepts is exactly the encoding of what it decodes to, so the encoding is canonical |
| Base64.EncodeLength | FreshPlate-testing/FreshPlate/client/recipe/EditRecipe.jsx:74 | the encoding of n bytes has 4 * ceil(n / 3) characters |
| Records.Find | FreshPlate-testing/FreshPlate/client/recipe/EditRecipe.jsx:92-95 | property lookup finds the first entry with the key, or reports that no entry has it |
| Records.Set | FreshPlate-testing/FreshPlate/client/recipe/EditRecipe.jsx:92-95 | after a spread update the key reads the new value and every other key reads as before; an existing key keeps its place, and a new key is appended at the end |
| Records.SetTwice | FreshPlate-testing/FreshPlate/client/recipe/EditRecipe.jsx:90-96 | writing one key twice is the same as writing only the second value |
| Records.SetSwap | FreshPlate-testing/FreshPlate/client/recipe/EditRecipe.jsx:90-96 | writes to two different existing keys commute |
| FormPayload.BuildPayload | FreshPlate-testing/FreshPlate/client/recipe/EditRecipe.jsx:126-137 | the `forEach` loop appending to the form builds exactly the part list defined key by key over the recipe |
| FormPayload.PayloadAppend | FreshPlate-testing/FreshPlate/client/recipe/EditRecipe.jsx:127-137 | the parts of two runs of keys are the parts of each run, one after the other |
| FormPayload.CountKeys | FreshPlate-testing/FreshPlate/client/recipe/EditRecipe.jsx:127 | each key of the object is visited exactly once, and absent keys never |
| FormPayload.TextFieldsInKeyOrder | FreshPlate-testing/FreshPlate/client/recipe/EditRecipe.jsx:127-136 | apart from the image-related parts, the payload is the recipe's own entries, in key order, with their values |
| FormPayload.TextFieldSent | FreshPlate-testing/FreshPlate/client/recipe/EditRecipe.jsx:134-136 | every key other than `image` and `deleteImage` is sent exactly once, with its value |
| FormPayload.ImagePartCount | FreshPlate-testing/FreshPlate/client/recipe/EditRecipe.jsx:128-130 | there is one `image` part exactly when the image is a picked File, and none otherwise |
| FormPayload.DeleteFlagCount | FreshPlate-testing/FreshPlate/client/recipe/EditRecipe.jsx:131-133 | the number of `deleteImage` parts is one for a `null` image, plus one if the object itself has a `deleteImage` key |
| FormPayload.PickedImageSent | FreshPlate-testing/FreshPlate/client/recipe/EditRecipe.jsx:129-130 | with a picked File, the payload is the recipe itself, the file in the image key's place |
| FormPayload.NullImageSent | FreshPlate-testing/FreshPlate/client/recipe/EditRecipe.jsx:131-132 | with a `null` image, the image entry is replaced in place by `deleteImage` = `"true"` |
| FormPayload.OtherImageNotSent | FreshPlate-testing/FreshPlate/client/recipe/EditRecipe.jsx:128-133 | any other image value, including a stored image, is dropped and nothing replaces it |
| EditRecipe.PreviewOf | FreshPlate-testing/FreshPlate/client/recipe/EditRecipe.jsx:71-78 | the preview is a data URL exactly when `image.data` is truthy, and the default picture otherwise |
| EditRecipe.PreviewPayload | FreshPlate-testing/FreshPlate/client/recipe/EditRecipe.jsx:72-75 | the preview URL starts `data:<contentType>;base64,`; its payload decodes back to the stored bytes, or is the stored string verbatim |
| EditRecipe.ViewOf | FreshPlate-testing/FreshPlate/client/recipe/EditRecipe.jsx:163-177 | spinner exactly while loading; otherwise the error alert exactly when the error is set, carrying it; the form exactly when not loading and no error |
| EditRecipe.SubmitNotification | FreshPlate-testing/FreshPlate/client/recipe/EditRecipe.jsx:145-157 | a success notification exactly when `update` answered an object without `error`; otherwise an error notification with the reply's error, the rejection's message, or "Failed to update recipe" |
| EditRecipe.LastWriteWins | FreshPlate-testing/FreshPlate/client/recipe/EditRecipe.jsx:90-96 | after any series of field edits, each field holds its last edited value, and unedited fields keep theirs |
| EditRecipe.EditRecipeScreen.constructor | FreshPlate-testing/FreshPlate/client/recipe/EditRecipe.jsx:34-46 | six empty text fields, loading, no error, a closed info notification, no preview, not submitting |
| EditRecipe.EditRecipeScreen.Load | FreshPlate-testing/FreshPlate/client/recipe/EditRecipe.jsx:52-88 | without an id: "No recipe ID provided" and no `read`; without a token, or with a falsy or failed read: the load-failed message and the recipe untouched; otherwise the recipe becomes the fetched object, and then either the preview becomes `PreviewOf` it or, when `String.fromCharCode.apply` gets more bytes than the engine's argument limit, the preview is untouched and the load-failed message is set; loading ends on every path |
| EditRecipe.EmptyBufferPreview | FreshPlate-testing/FreshPlate/client/recipe/EditRecipe.jsx:72-76 | a stored image whose `data` object has no byte array never throws and previews as the bare `data:<contentType>;base64,` prefix |
| EditRecipe.OpenOnRecipe | FreshPlate-testing/FreshPlate/client/recipe/EditRecipe.jsx:66-83 | after a successful `read`, the recipe is the fetched object; the form shows with `PreviewOf` the recipe exactly when the preview does not throw, and otherwise the load-failed alert with no preview |
| EditRecipe.EditRecipeScreen.HandleChange | FreshPlate-testing/FreshPlate/client/recipe/EditRecipe.jsx:90-96 | the recipe becomes the spread update of the named field with the typed text |
| EditRecipe.EditRecipeScreen.HandleImageChange | FreshPlate-testing/FreshPlate/client/recipe/EditRecipe.jsx:98-107 | an empty selection changes nothing; otherwise `image` becomes the first file and the preview a newly minted object URL for it |
| EditRecipe.EditRecipeScreen.HandleImageDelete | FreshPlate-testing/FreshPlate/client/recipe/EditRecipe.jsx:109-115 | `image` becomes `null` and the preview is cleared |
| EditRecipe.EditRecipeScreen.BeginSubmit | FreshPlate-testing/FreshPlate/client/recipe/EditRecipe.jsx:117-143 | without a token: a "User not authenticated" error notification, no `update`, not submitting; otherwise submitting, one `update` sent with the recipe's payload, and one more answer pending; the recipe is never changed |
| EditRecipe.EditRecipeScreen.CompleteSubmit | FreshPlate-testing/FreshPlate/client/recipe/EditRecipe.jsx:145-160 | only for an `update` that was sent: the notification is `SubmitNotification` of the outcome, navigation to `/recipelist` after 2000 ms is scheduled only on success, submitting ends, and one answer fewer is pending |
| EditRecipe.EditRecipeScreen.HandleSubmit | FreshPlate-testing/FreshPlate/client/recipe/EditRecipe.jsx:117-160 | no token: no `update`, no navigation, the "User not authenticated" notification; a token: exactly one `update` carrying `Payload` of the recipe; navigation to `/recipelist` is scheduled exactly when there is a token and the server answers without error; submitting ends |
| EditRecipe.EditRecipeScreen.CloseNotification | FreshPlate-testing/FreshPlate/client/recipe/EditRecipe.jsx:402 | the notification is closed, its message and severity kept |
| EditRecipe.UnchangedTextFields | FreshPlate-testing/FreshPlate/client/recipe/EditRecipe.jsx:126-135 | the payload of a recipe carries each key other than `image` and `deleteImage` exactly once, with its value, in the recipe's key order |
| EditRecipe.UnchangedImageSlot | FreshPlate-testing/FreshPlate/client/recipe/EditRecipe.jsx:127-133 | a `null` image is sent as `deleteImage` = `"true"`, and there is an `image` part exactly when the image is a picked File |
| EditRecipe.SubmitUnchanged | FreshPlate-testing/FreshPlate/client/recipe/EditRecipe.jsx:66-143 | loading a recipe and submitting it unmodified from the form sends every server key other than `image` and `deleteImage` once with its value in key order, `deleteImage` for a `null` image, and an `image` part only for a File |
| Signin.OrUndefined | FreshPlate-testing/FreshPlate/client/lib/Signin.jsx:57-58 | `s \|\| undefined` is defined exactly for non-empty text, and then is that text |
| Signin.RequestOf | FreshPlate-testing/FreshPlate/client/lib/Signin.jsx:56-59 | the request never carries an empty field, and the typed fields can be read back from it |
| Signin.WithField | FreshPlate-testing/FreshPlate/client/lib/Signin.jsx:72-74 | the edited input shows the new text; the other input, the error and the redirect flag are unchanged |
| Signin.AfterReply | FreshPlate-testing/FreshPlate/client/lib/Signin.jsx:61-69 | an error reply sets the error and leaves the redirect flag as it was; a reply without error clears the error and sets the flag; the fields are never changed |
| Signin.RedirectTarget | FreshPlate-testing/FreshPlate/client/lib/Signin.jsx:76-80 | `location.state.from` when there is a state, otherwise `/member` |
| Signin.ViewOf | FreshPlate-testing/FreshPlate/client/lib/Signin.jsx:82-123 | a redirect to the target exactly when the flag is set; otherwise the form, with an error line exactly when the error is non-empty |
| Signin.RedirectIsFinal | FreshPlate-testing/FreshPlate/client/lib/Signin.jsx:83-89 | once the flag is set, no later sequence of replies brings the form back |
| Signin.SigninScreen.constructor | FreshPlate-testing/FreshPlate/client/lib/Signin.jsx:41-46 | empty email, password and error; no redirect |
| Signin.SigninScreen.HandleChange | FreshPlate-testing/FreshPlate/client/lib/Signin.jsx:72-74 | `values` becomes `WithField` of the input and its text |
| Signin.SigninScreen.ClickSubmit | FreshPlate-testing/FreshPlate/client/lib/Signin.jsx:55-70 | one request with `RequestOf` the values; the values become `AfterReply`; the session is stored only on a reply without error |
| Signin.SigninScreen.ClickRegister | FreshPlate-testing/FreshPlate/client/lib/Signin.jsx:51-53 | navigates to `/signup` |
| Signin.LoginOnce | FreshPlate-testing/FreshPlate/client/lib/Signin.jsx:55-89 | typing and pressing login once redirects exactly on a reply without error, to the location's target, with the session stored; an error reply shows its text on the form |

## Left out

- The `read`, `update` and `signin` HTTP clients and `auth-helper` are not part of this model. Their answers, and the token of `auth.isAuthenticated()`, are parameters of the handlers.
- `console.error` logging, the JSX layout, styling and the snackbar's auto-hide timer are presentation only.
- `setTimeout` and navigation are recorded as scheduled, never fired. The Cancel button's immediate `navigate('/recipelist')` is plain routing.
- Async interleaving is not modelled. Each awaited call settles as one step, so two submits in flight and Signin's stale `values` closure are out of scope.
- `EditRecipe.EditRecipeScreen.Load` runs once. The effect re-running when the `id` parameter changes is not modelled; the id is a constant of the screen.
- `Object.keys` lists integer-like keys first in ascending order. The model keeps plain insertion order.
- `FormData.append` turns non-`File` values into strings. The model keeps each part's value as the object held it.
- `EditRecipe.MediaTypeText` covers a present or absent `contentType`. A `null` one, which a template literal prints as `null`, is not modelled.
- `EditRecipe.UpdateOutcome` carries a string `error`. A truthy non-string `error`, which `new Error` would stringify, is not modelled.
- `btoa(String.fromCharCode.apply(null, bytes))` is modelled as the base 64 encoding of the bytes when the call completes, since every byte is a Latin-1 character. Whether it completes depends on the engine's argument limit, which is a parameter of `EditRecipe.EditRecipeScreen.Load`; the limit's value is not modelled.
- `URL.createObjectURL` returns a fresh opaque URL. The model names it by its file and a serial number.
- `handleImageDelete` is modelled as a transition, although its button is commented out in the form.
- Browser-side `required` and `type="number"` input checks are not modelled, because they are not code of the screen.
- `Signin.Target` keeps only the `pathname` of a router location.
- `Signin.SigninReply` covers a rejected or `undefined` answer and an object answer. A non-object answer such as a string, whose missing `error` would pass as success, is not modelled.
- The repeated redirect check in the sign-in render is modelled once, because the second check can never be reached.
