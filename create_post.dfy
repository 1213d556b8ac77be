/**
 * The post composer (src/components/post/createPost.tsx): a text field, up to
 * four chosen images with their preview URLs, and the submit that sends them.
 */
module CreatePost {
  import opened Wrappers
  import opened JsText

  const MaxImages: nat := 4
  const BlankPostError := "Add some text or image to post"
  const CreateFailedError := "Failed to create post"

  /** A chosen file; only its identity matters here. */
  datatype ImageFile = ImageFile(name: string, size: nat)

  /** The payload handed to `createPost`. */
  datatype NewPost = NewPost(description: string, images: seq<ImageFile>)

  /** The message shown when some chosen files do not fit. */
  function TooManyImagesError(remaining: nat): (r: string)
    ensures |r| > 25 && r[..5] == "Only " && r[|r| - 20..] == " more images allowed"
    ensures forall i :: 5 <= i < |r| - 20 ==> '0' <= r[i] <= '9'
    ensures DigitsValue(r[5..|r| - 20]) == remaining
  {
    var digits := NatToString(remaining);
    NatToStringRoundTrip(remaining);
    var r := "Only " + digits + " more images allowed";
    assert r[5..|r| - 20] == digits;
    r
  }

  /**
   * `files.slice(0, remaining)` with `remaining = 4 - selected`: the files that
   * still fit, in the order they were chosen.
   */
  function Accepted(files: seq<ImageFile>, selected: nat): (r: seq<ImageFile>)
    requires selected <= MaxImages
    ensures |r| <= MaxImages - selected && |r| <= |files| && r == files[..|r|]
    ensures |r| < |files| <==> |files| > MaxImages - selected
    ensures |r| == if |files| <= MaxImages - selected then |files| else MaxImages - selected
  {
    if |files| <= MaxImages - selected then files else files[..MaxImages - selected]
  }

  /** `xs.filter((_, i) => i !== index)`. */
  function RemoveAt<T>(xs: seq<T>, index: int): (r: seq<T>)
    ensures 0 <= index < |xs| ==> |r| == |xs| - 1
    ensures 0 <= index < |xs| ==> forall i :: 0 <= i < index ==> r[i] == xs[i]
    ensures 0 <= index < |xs| ==> forall i :: index <= i < |r| ==> r[i] == xs[i + 1]
    ensures !(0 <= index < |xs|) ==> r == xs
  {
    if 0 <= index < |xs| then xs[..index] + xs[index + 1..] else xs
  }

  /** Removing an index takes out exactly that one element. */
  lemma RemoveAtMultiset<T>(xs: seq<T>, index: int)
    requires 0 <= index < |xs|
    ensures multiset(RemoveAt(xs, index)) + multiset{xs[index]} == multiset(xs)
  {
    assert xs == xs[..index] + [xs[index]] + xs[index + 1..];
  }

  /** The preview URLs for `files`, in order. */
  function Previews(files: seq<ImageFile>, createObjectUrl: ImageFile -> string): (r: seq<string>)
    ensures |r| == |files| && forall i :: 0 <= i < |files| ==> r[i] == createObjectUrl(files[i])
  {
    seq(|files|, i requires 0 <= i < |files| => createObjectUrl(files[i]))
  }

  class PostComposer {
    var text: string
    var selectedImages: seq<ImageFile>
    var previewUrls: seq<string>
    var loading: bool
    var error: Option<string>

    /** At most four images, and one preview URL per image. */
    ghost predicate Valid()
      reads this
    {
      |selectedImages| <= MaxImages && |previewUrls| == |selectedImages|
    }

    constructor()
      ensures Valid()
      ensures text == [] && selectedImages == [] && previewUrls == [] && !loading && error.None?
    {
      text := [];
      selectedImages := [];
      previewUrls := [];
      loading := false;
      error := None;
    }

    /** `isFormValid`: some non-blank text or at least one image. */
    predicate IsFormValid()
      reads this
    {
      Trim(text) != [] || |selectedImages| > 0
    }

    /** The text field's change handler. */
    method EditText(value: string)
      modifies this
      ensures text == value
      ensures selectedImages == old(selectedImages) && previewUrls == old(previewUrls)
      ensures loading == old(loading) && error == old(error)
    {
      text := value;
    }

    /**
     * `handleImageChange`: append the files that still fit, with their previews,
     * and complain when some had to be dropped. Choosing nothing changes nothing.
     */
    method HandleImageChange(files: seq<ImageFile>, createObjectUrl: ImageFile -> string)
      requires Valid()
      modifies this
      ensures Valid()
      ensures files == [] ==> unchanged(this)
      ensures files != [] ==>
        var accepted := Accepted(files, |old(selectedImages)|);
        && selectedImages == old(selectedImages) + accepted
        && previewUrls == old(previewUrls) + Previews(accepted, createObjectUrl)
      ensures files != [] && |files| > MaxImages - |old(selectedImages)| ==>
        error == Some(TooManyImagesError(MaxImages - |old(selectedImages)|))
      ensures |files| <= MaxImages - |old(selectedImages)| ==> error == old(error)
      ensures text == old(text) && loading == old(loading)
    {
      if files == [] {
        return;
      }
      var remaining := MaxImages - |selectedImages|;
      var filesToAdd := Accepted(files, |selectedImages|);
      if |filesToAdd| < |files| {
        error := Some(TooManyImagesError(remaining));
      }
      selectedImages := selectedImages + filesToAdd;
      previewUrls := previewUrls + Previews(filesToAdd, createObjectUrl);
    }

    /** `removeImage(index)`: drop position `index` from both lists. */
    method RemoveImage(index: int)
      requires Valid()
      modifies this
      ensures Valid()
      ensures selectedImages == RemoveAt(old(selectedImages), index)
      ensures previewUrls == RemoveAt(old(previewUrls), index)
      ensures text == old(text) && loading == old(loading) && error == old(error)
    {
      selectedImages := RemoveAt(selectedImages, index);
      previewUrls := RemoveAt(previewUrls, index);
    }

    /** `clearAll`: an empty composer; only `loading` is kept. */
    method ClearAll()
      modifies this
      ensures Valid() && !IsFormValid()
      ensures text == [] && selectedImages == [] && previewUrls == [] && error.None?
      ensures loading == old(loading)
    {
      text := [];
      previewUrls := [];
      selectedImages := [];
      error := None;
    }

    /**
     * `handleSubmit`. A blank form only sets an error. Otherwise `request` is
     * what `createPost` is sent, and `created` is how that call settled.
     */
    method HandleSubmit(created: Outcome<()>) returns (request: Option<NewPost>)
      requires Valid()
      modifies this
      ensures Valid()
      ensures request.None? <==> !old(IsFormValid())
      ensures request.None? ==>
        && error == Some(BlankPostError) && text == old(text) && selectedImages == old(selectedImages)
        && previewUrls == old(previewUrls) && loading == old(loading)
      ensures request.Some? ==> request.value == NewPost(Trim(old(text)), old(selectedImages)) && !loading
      ensures request.Some? && created.Success? ==>
        && text == [] && selectedImages == [] && previewUrls == [] && error.None?
      ensures request.Some? && created.Failure? ==>
        && error == Some(CreateFailedError) && text == old(text)
        && selectedImages == old(selectedImages) && previewUrls == old(previewUrls)
    {
      if Trim(text) == [] && |selectedImages| == 0 {
        error := Some(BlankPostError);
        return None;
      }
      loading := true;
      error := None;
      request := Some(NewPost(Trim(text), selectedImages));
      if created.Success? {
        ClearAll();
      } else {
        error := Some(CreateFailedError);
      }
      loading := false;
    }
  }
}
