/**
 * The edit-recipe screen: it loads one recipe by the `id` query parameter, lets the user
 * edit its text fields and pick a new image, and submits the whole record as a multipart
 * form. The server calls, the auth store and the browser's `URL.createObjectURL` are
 * inputs here: each handler takes the answer it would have received as a parameter, and
 * the screen keeps a log of the requests it made, the object URLs it minted and the
 * navigations it scheduled.
 */
module EditRecipe {
  import opened Wrappers
  import opened Records
  import opened FormPayload
  import Base64

  datatype Severity = Info | Success | Error

  /** The snackbar state `{ open, message, severity }`. */
  datatype Notification = Notification(open: bool, message: string, severity: Severity)

  /** The value of `imagePreview`. */
  datatype Preview =
    | NoPreview                           // `null`
    | DefaultImage                        // the bundled placeholder picture
    | DataUrl(url: string)                // a `data:` URL built from the stored image
    | ObjectUrl(file: File, serial: nat)  // the `serial`-th URL minted by `URL.createObjectURL`

  /** What `auth.isAuthenticated()` hands back when someone is signed in. */
  datatype Jwt = Jwt(token: string)

  /** How the awaited `read` call ended. */
  datatype ReadOutcome =
    | ReadThrew                 // the call rejected
    | ReadFalsy                 // it resolved to a falsy value
    | ReadData(data: Record)    // it resolved to an object

  /** How the awaited `update` call ended. */
  datatype UpdateOutcome =
    | UpdateThrew(message: string)   // the call rejected with an Error of this message
    | UpdateFalsy                    // it resolved to a falsy value
    | UpdateReplied(error: string)   // it resolved to an object; "" when its `error` is falsy

  /** A call the screen made to the recipe API. */
  datatype Request =
    | ReadRequest(id: string, token: string)
    | UpdateRequest(target: Option<string>, token: string, parts: seq<Entry>)

  /** A `setTimeout(() => navigate(path), delay)` the screen scheduled. */
  datatype Navigation = Navigation(path: string, delay: nat)

  /** What the screen renders. */
  datatype View = Spinner | ErrorAlert(message: string) | EditForm

  const NoIdMessage := "No recipe ID provided"
  const LoadFailedMessage := "Failed to load recipe. Please try again later."
  const NotAuthenticatedMessage := "User not authenticated"
  const UpdateFailedMessage := "Failed to update recipe"
  const UpdatedMessage := "Recipe updated successfully"
  const RecipeListPath := "/recipelist"
  const RedirectDelay := 2000

  const InitialRecipe: Record := [
    Entry("title", Str("")), Entry("ingredients", Str("")), Entry("instructions", Str("")),
    Entry("preptime", Str("")), Entry("cooktime", Str("")), Entry("servings", Str(""))]

  /** JavaScript truthiness of an optional string. */
  predicate Truthy(s: Option<string>) {
    s.Some? && s.value != ""
  }

  /** `data.image.data` is truthy: a non-empty string or a byte buffer. */
  predicate HasImageData(d: ImageData) {
    match d
    case NoData => false
    case Encoded(text) => text != ""
    case Buffer(_) => true
  }

  /** `data.image && data.image.data`, for the value found under `image`. */
  predicate ShowsStoredImage(image: Option<Value>) {
    image.Some? && image.value.StoredImage? && HasImageData(image.value.data)
  }

  /** `contentType` as a template literal prints it. */
  function MediaTypeText(contentType: Option<string>): string {
    if contentType.Some? then contentType.value else "undefined"
  }

  /** The start of a base 64 `data:` URL (section 3 of RFC 2397). */
  function DataUrlPrefix(contentType: Option<string>): string {
    "data:" + MediaTypeText(contentType) + ";base64,"
  }

  /** The base 64 text of a stored image: a string is taken as it is, bytes are encoded. */
  function ImageText(d: ImageData): string
    requires HasImageData(d)
  {
    match d
    case Encoded(text) => text
    case Buffer(bytes) => Base64.Encode(bytes)
  }

  /** The preview chosen after a successful load. */
  function PreviewOf(data: Record): (p: Preview)
    ensures p.DataUrl? <==> ShowsStoredImage(Get(data, "image"))
    ensures !p.DataUrl? ==> p == DefaultImage
  {
    var image := Get(data, "image");
    if ShowsStoredImage(image) then
      DataUrl(DataUrlPrefix(image.value.contentType) + ImageText(image.value.data))
    else
      DefaultImage
  }

  /** `String.fromCharCode.apply(null, bytes)` passes every byte as one argument, and the
    * engine refuses a call with more arguments than `argumentLimit` with a RangeError. */
  predicate PreviewThrows(data: Record, argumentLimit: nat) {
    var image := Get(data, "image");
    ShowsStoredImage(image) && image.value.data.Buffer? &&
    |image.value.data.bytes| > argumentLimit
  }

  /** A stored image whose `data` object carries no bytes previews as the bare prefix. */
  lemma EmptyBufferPreview(data: Record, contentType: Option<string>)
    requires Get(data, "image") == Some(StoredImage(contentType, Buffer([])))
    ensures !PreviewThrows(data, 0)
    ensures PreviewOf(data) == DataUrl(DataUrlPrefix(contentType))
  {
  }

  /** The payload of the preview URL gives back the stored image: its bytes when the server
    * sent a buffer, its text when it sent a string. */
  lemma PreviewPayload(data: Record)
    requires ShowsStoredImage(Get(data, "image"))
    ensures var image := Get(data, "image").value;
            var prefix := DataUrlPrefix(image.contentType);
            var url := PreviewOf(data).url;
            |prefix| <= |url| && url[..|prefix|] == prefix &&
            (image.data.Buffer? ==> Base64.Decode(url[|prefix|..]) == Some(image.data.bytes)) &&
            (image.data.Encoded? ==> url[|prefix|..] == image.data.text)
  {
    var image := Get(data, "image").value;
    var prefix := DataUrlPrefix(image.contentType);
    var url := PreviewOf(data).url;
    assert url == prefix + ImageText(image.data);
    assert url[|prefix|..] == ImageText(image.data);
    if image.data.Buffer? {
      Base64.DecodeEncode(image.data.bytes);
    }
  }

  /** The render choice: a spinner while loading, then the error if there is one, else the form. */
  function ViewOf(loading: bool, error: Option<string>): (v: View)
    ensures v == Spinner <==> loading
    ensures v == EditForm <==> !loading && !Truthy(error)
    ensures v.ErrorAlert? ==> Truthy(error) && v.message == error.value
  {
    if loading then Spinner
    else if Truthy(error) then ErrorAlert(error.value)
    else EditForm
  }

  /** The notification a finished `update` call leaves behind: success only when the server
    * answered with an object without an error, otherwise an error carrying the best message
    * available. */
  function SubmitNotification(outcome: UpdateOutcome): (n: Notification)
    ensures n.open
    ensures n.severity == Success <==> outcome == UpdateReplied("")
    ensures n.severity == Success ==> n.message == UpdatedMessage
    ensures n.severity != Success ==> n.severity == Error && n.message != ""
    ensures outcome.UpdateFalsy? ==> n.message == UpdateFailedMessage
    ensures outcome.UpdateReplied? && outcome.error != "" ==> n.message == outcome.error
    ensures outcome.UpdateThrew? ==>
              n.message == (if outcome.message != "" then outcome.message else UpdateFailedMessage)
  {
    match outcome
    case UpdateThrew(m) => Notification(true, if m != "" then m else UpdateFailedMessage, Error)
    case UpdateFalsy => Notification(true, UpdateFailedMessage, Error)
    case UpdateReplied(e) =>
      if e != "" then Notification(true, e, Error) else Notification(true, UpdatedMessage, Success)
  }

  /** One keystroke in a text field: the input's `name` and its new `value`. */
  datatype FieldEdit = FieldEdit(name: string, value: string)

  /** The recipe after a series of `handleChange` calls. */
  function ApplyEdits(r: Record, edits: seq<FieldEdit>): Record
    decreases |edits|
  {
    if |edits| == 0 then r
    else
      var e := edits[|edits| - 1];
      Set(ApplyEdits(r, edits[..|edits| - 1]), e.name, Str(e.value))
  }

  /** The value of the last edit of field `k`, if any. */
  function LastEdit(edits: seq<FieldEdit>, k: string): Option<string>
    decreases |edits|
  {
    if |edits| == 0 then None
    else if edits[|edits| - 1].name == k then Some(edits[|edits| - 1].value)
    else LastEdit(edits[..|edits| - 1], k)
  }

  /** Field edits are last-write-wins per field; a field nobody edited keeps its value. */
  lemma {:induction false} LastWriteWins(r: Record, edits: seq<FieldEdit>, k: string)
    ensures Get(ApplyEdits(r, edits), k) ==
            (if LastEdit(edits, k).Some? then Some(Str(LastEdit(edits, k).value)) else Get(r, k))
    decreases |edits|
  {
    if |edits| > 0 {
      LastWriteWins(r, edits[..|edits| - 1], k);
    }
  }

  class EditRecipeScreen {
    /** The `id` query parameter, None when the URL has none. */
    const recipeId: Option<string>

    var recipe: Record
    var loading: bool
    var error: Option<string>
    var notification: Notification
    var imagePreview: Preview
    var isSubmitting: bool
    /** `update` calls sent whose answer has not yet been handled. */
    var pending: nat

    /** Calls made to `read` and `update`, in order. */
    var requests: seq<Request>
    /** Files passed to `URL.createObjectURL`, in order; the index of a file is its URL's serial. */
    var objectUrls: seq<File>
    /** Navigations scheduled with `setTimeout`. */
    var navigations: seq<Navigation>

    /** The first render. */
    constructor(recipeId: Option<string>)
      ensures this.recipeId == recipeId
      ensures recipe == InitialRecipe && loading && error == None
      ensures notification == Notification(false, "", Info)
      ensures imagePreview == NoPreview && !isSubmitting && pending == 0
      ensures requests == [] && objectUrls == [] && navigations == []
    {
      this.recipeId := recipeId;
      recipe := InitialRecipe;
      loading := true;
      error := None;
      notification := Notification(false, "", Info);
      imagePreview := NoPreview;
      isSubmitting := false;
      pending := 0;
      requests := [];
      objectUrls := [];
      navigations := [];
    }

    function CurrentView(): View
      reads this
    {
      ViewOf(loading, error)
    }

    /** `fetchRecipe`, run once on mount with the current token, the answer of `read` and the
      * engine's limit on the number of arguments of a call. */
    method Load(jwt: Option<Jwt>, outcome: ReadOutcome, argumentLimit: nat)
      modifies this`recipe, this`loading, this`error, this`imagePreview, this`requests
      ensures !loading
      ensures !Truthy(recipeId) ==>
                error == Some(NoIdMessage) && requests == old(requests) &&
                recipe == old(recipe) && imagePreview == old(imagePreview)
      ensures Truthy(recipeId) && jwt.None? ==>
                error == Some(LoadFailedMessage) && requests == old(requests) &&
                recipe == old(recipe) && imagePreview == old(imagePreview)
      ensures Truthy(recipeId) && jwt.Some? ==>
                requests == old(requests) + [ReadRequest(recipeId.value, jwt.value.token)]
      ensures Truthy(recipeId) && jwt.Some? && outcome.ReadData? ==> recipe == outcome.data
      ensures Truthy(recipeId) && jwt.Some? && outcome.ReadData? &&
              !PreviewThrows(outcome.data, argumentLimit) ==>
                imagePreview == PreviewOf(outcome.data) && error == old(error)
      ensures Truthy(recipeId) && jwt.Some? && outcome.ReadData? &&
              PreviewThrows(outcome.data, argumentLimit) ==>
                imagePreview == old(imagePreview) && error == Some(LoadFailedMessage)
      ensures Truthy(recipeId) && jwt.Some? && !outcome.ReadData? ==>
                error == Some(LoadFailedMessage) &&
                recipe == old(recipe) && imagePreview == old(imagePreview)
    {
      if !Truthy(recipeId) {
        error := Some(NoIdMessage);
        loading := false;
        return;
      }
      if jwt.None? {
        error := Some(LoadFailedMessage);
      } else {
        requests := requests + [ReadRequest(recipeId.value, jwt.value.token)];
        match outcome
        case ReadData(data) =>
          recipe := data;
          if PreviewThrows(data, argumentLimit) {
            error := Some(LoadFailedMessage);
          } else {
            imagePreview := PreviewOf(data);
          }
        case _ =>
          error := Some(LoadFailedMessage);
      }
      loading := false;
    }

    /** `handleChange`: one text input changed. */
    method HandleChange(name: string, value: string)
      modifies this`recipe
      ensures recipe == Set(old(recipe), name, Str(value))
    {
      recipe := Set(recipe, name, Str(value));
    }

    /** `handleImageChange`: the file input changed; an empty selection changes nothing. */
    method HandleImageChange(files: seq<File>)
      modifies this`recipe, this`imagePreview, this`objectUrls
      ensures |files| == 0 ==>
                recipe == old(recipe) && imagePreview == old(imagePreview) &&
                objectUrls == old(objectUrls)
      ensures |files| > 0 ==>
                recipe == Set(old(recipe), "image", Picked(files[0])) &&
                objectUrls == old(objectUrls) + [files[0]] &&
                imagePreview == ObjectUrl(files[0], |old(objectUrls)|)
    {
      if |files| > 0 {
        var file := files[0];
        recipe := Set(recipe, "image", Picked(file));
        imagePreview := ObjectUrl(file, |objectUrls|);
        objectUrls := objectUrls + [file];
      }
    }

    /** `handleImageDelete`: clear the image and its preview. */
    method HandleImageDelete()
      modifies this`recipe, this`imagePreview
      ensures recipe == Set(old(recipe), "image", Null)
      ensures imagePreview == NoPreview
    {
      recipe := Set(recipe, "image", Null);
      imagePreview := NoPreview;
    }

    /** `handleSubmit` up to the awaited `update` call: serialise the recipe and send it. */
    method BeginSubmit(jwt: Option<Jwt>)
      modifies this`isSubmitting, this`notification, this`requests, this`pending
      ensures pending == old(pending) + (if jwt.Some? then 1 else 0)
      ensures jwt.None? ==>
                !isSubmitting && requests == old(requests) &&
                notification == Notification(true, NotAuthenticatedMessage, Error)
      ensures jwt.Some? ==>
                isSubmitting && notification == old(notification) &&
                requests == old(requests) + [UpdateRequest(recipeId, jwt.value.token, Payload(recipe))]
    {
      isSubmitting := true;
      if jwt.None? {
        notification := Notification(true, NotAuthenticatedMessage, Error);
        isSubmitting := false;
        return;
      }
      var parts := BuildPayload(recipe);
      requests := requests + [UpdateRequest(recipeId, jwt.value.token, parts)];
      pending := pending + 1;
    }

    /** `handleSubmit` after the awaited `update` call settles; there is one only for an
      * `update` that was sent. */
    method CompleteSubmit(outcome: UpdateOutcome)
      requires pending > 0
      modifies this`isSubmitting, this`notification, this`navigations, this`pending
      ensures pending == old(pending) - 1
      ensures !isSubmitting
      ensures notification == SubmitNotification(outcome)
      ensures navigations == old(navigations) +
                (if outcome == UpdateReplied("") then [Navigation(RecipeListPath, RedirectDelay)] else [])
    {
      var thrown: Option<string> := None;
      match outcome {
        case UpdateThrew(m) =>
          thrown := Some(m);
        case UpdateFalsy =>
          thrown := Some(UpdateFailedMessage);
        case UpdateReplied(e) =>
          if e != "" {
            thrown := Some(e);
          }
      }
      if thrown.None? {
        notification := Notification(true, UpdatedMessage, Success);
        navigations := navigations + [Navigation(RecipeListPath, RedirectDelay)];
      } else {
        var message := if thrown.value != "" then thrown.value else UpdateFailedMessage;
        notification := Notification(true, message, Error);
      }
      isSubmitting := false;
      pending := pending - 1;
    }

    /** One whole `handleSubmit`: no token means no `update` and no navigation; with one,
      * exactly one `update` carries the recipe's payload, and the list screen is scheduled
      * exactly when the server answers without an error. */
    method HandleSubmit(jwt: Option<Jwt>, outcome: UpdateOutcome)
      modifies this`isSubmitting, this`notification, this`requests, this`pending, this`navigations
      ensures !isSubmitting && pending == old(pending) && recipe == old(recipe)
      ensures jwt.None? ==>
                requests == old(requests) && navigations == old(navigations) &&
                notification == Notification(true, NotAuthenticatedMessage, Error)
      ensures jwt.Some? ==>
                requests == old(requests) + [UpdateRequest(recipeId, jwt.value.token, Payload(recipe))] &&
                notification == SubmitNotification(outcome)
      ensures navigations != old(navigations) <==> jwt.Some? && outcome == UpdateReplied("")
      ensures navigations != old(navigations) ==>
                navigations == old(navigations) + [Navigation(RecipeListPath, RedirectDelay)]
    {
      BeginSubmit(jwt);
      if jwt.Some? {
        CompleteSubmit(outcome);
      }
    }

    /** The snackbar's `onClose`. */
    method CloseNotification()
      modifies this`notification
      ensures notification == old(notification).(open := false)
    {
      notification := notification.(open := false);
    }
  }

  /** A new screen for recipe `id`, after `read` answered with `data`. */
  method LoadedScreen(id: string, jwt: Jwt, data: Record, argumentLimit: nat)
    returns (screen: EditRecipeScreen)
    requires id != ""
    ensures fresh(screen) && screen.recipeId == Some(id) && screen.recipe == data
    ensures PreviewThrows(data, argumentLimit) ==>
              screen.CurrentView() == ErrorAlert(LoadFailedMessage) && screen.imagePreview == NoPreview
    ensures !PreviewThrows(data, argumentLimit) ==>
              screen.CurrentView() == EditForm && screen.imagePreview == PreviewOf(data)
  {
    screen := new EditRecipeScreen(Some(id));
    screen.Load(Some(jwt), ReadData(data), argumentLimit);
  }

  /**
   * Open the screen on a recipe and let it load: the recipe is always taken, and the screen
   * shows the form unless building the preview throws, in which case it shows the
   * load-failed alert instead.
   */
  method OpenOnRecipe(id: string, jwt: Jwt, data: Record, argumentLimit: nat)
    returns (view: View, loaded: Record, preview: Preview)
    requires id != ""
    ensures loaded == data
    ensures view == EditForm <==> !PreviewThrows(data, argumentLimit)
    ensures view != EditForm ==> view == ErrorAlert(LoadFailedMessage) && preview == NoPreview
    ensures view == EditForm ==> preview == PreviewOf(data)
  {
    var screen := LoadedScreen(id, jwt, data, argumentLimit);
    view := screen.CurrentView();
    loaded := screen.recipe;
    preview := screen.imagePreview;
  }

  /** The payload of an untouched recipe carries every key other than `image` and
    * `deleteImage` once, with its value, in the recipe's key order. */
  lemma UnchangedTextFields(data: Record)
    ensures TextFields(Payload(data)) == TextFields(data)
    ensures forall k :: !IsImageName(k) && HasKey(data, k) ==>
              Count(Payload(data), k) == 1 && Entry(k, Get(data, k).value) in Payload(data)
  {
    TextFieldsInKeyOrder(data);
    forall k | !IsImageName(k) && HasKey(data, k)
      ensures Count(Payload(data), k) == 1 && Entry(k, Get(data, k).value) in Payload(data)
    {
      TextFieldSent(data, k);
    }
  }

  /** The payload of an untouched recipe carries its image slot as the image rule says: a
    * `null` image as the `deleteImage` flag, and an `image` part only for a picked File. */
  lemma UnchangedImageSlot(data: Record)
    ensures Get(data, "image") == Some(Null) ==> Entry("deleteImage", Str("true")) in Payload(data)
    ensures Count(Payload(data), "image") ==
              (if Get(data, "image").Some? && Get(data, "image").value.Picked? then 1 else 0)
  {
    if Get(data, "image") == Some(Null) {
      NullImageSent(data);
      var i := Find(data, "image");
      assert Payload(data)[i] == Entry("deleteImage", Str("true"));
    }
    ImagePartCount(data);
  }

  /**
   * Open the screen on a recipe, let it load, and submit from the form without touching
   * anything: every key the server sent, other than `image` and `deleteImage`, goes back
   * once as a text part, in the server's key order, and a `null` image goes back as the
   * `deleteImage` flag. The submit button is part of the form, so the preview must not
   * have thrown.
   */
  method SubmitUnchanged(id: string, jwt: Jwt, data: Record, argumentLimit: nat)
    returns (parts: seq<Entry>)
    requires id != ""
    requires !PreviewThrows(data, argumentLimit)
    ensures TextFields(parts) == TextFields(data)
    ensures forall k :: !IsImageName(k) && HasKey(data, k) ==>
              Count(parts, k) == 1 && Entry(k, Get(data, k).value) in parts
    ensures Get(data, "image") == Some(Null) ==> Entry("deleteImage", Str("true")) in parts
    ensures Count(parts, "image") == (if Get(data, "image").Some? && Get(data, "image").value.Picked? then 1 else 0)
  {
    var screen := LoadedScreen(id, jwt, data, argumentLimit);
    assert screen.CurrentView() == EditForm;
    screen.BeginSubmit(Some(jwt));
    parts := screen.requests[|screen.requests| - 1].parts;
    UnchangedTextFields(data);
    UnchangedImageSlot(data);
  }
}
