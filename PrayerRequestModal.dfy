/** The form that submits a new prayer request: the fixed category list and
    its cover images, the form state, the two-step submit (validate, then
    preview and confirm) and the item that confirming builds. */
module PrayerRequestModal {
  import opened Types
  import opened Text
  import opened Media
  import opened Seqs

  /** The six categories the form offers, in button order. */
  const CategoryOptions: seq<string> := ["病人醫治", "心理支持", "兒童病患", "癌症病患", "家庭關係", "長期照護"]

  /** The bundled cover images, referred to by their asset paths. */
  const DefaultImage: string := "src/assets/default.jpg"
  const CoverPatient: string := "src/assets/cover_patient.jpg"
  const CoverKid: string := "src/assets/cover_kid.jpg"
  const CoverCancer: string := "src/assets/cover_cancer.jpg"
  const CoverFamily: string := "src/assets/cover_family.jpg"
  const CoverCare: string := "src/assets/cover_care.jpg"

  /** The cover used when a request comes without photos, by category. */
  const CategoryToImage: map<string, string> := map[
    "病人醫治" := CoverPatient,
    "心理支持" := DefaultImage,
    "兒童病患" := CoverKid,
    "癌症病患" := CoverCancer,
    "家庭關係" := CoverFamily,
    "長期照護" := CoverCare]

  /** Most photos one request may carry. */
  const MaxImages: nat := 5

  /** Every offered category has a cover; the psychological-support category
      uses the default image and the children's category the child cover. */
  lemma CategoryTableComplete()
    ensures forall c :: c in CategoryOptions ==> c in CategoryToImage
    ensures CategoryToImage["心理支持"] == DefaultImage
    ensures CategoryToImage["兒童病患"] == CoverKid
    ensures CategoryToImage.Keys == set c | c in CategoryOptions
  {
  }

  /** `s.filter(x => x !== c)`. */
  function Without(s: seq<string>, c: string): (r: seq<string>)
    ensures c !in r
    ensures forall x :: x != c ==> (x in r <==> x in s)
    ensures c !in s ==> r == s
    ensures |r| <= |s| && (c in s ==> |r| < |s|)
  {
    if s == [] then []
    else
      var rest := Without(s[1..], c);
      assert s == [s[0]] + s[1..];
      if s[0] != c then [s[0]] + rest else rest
  }

  lemma {:induction false} WithoutAppend(a: seq<string>, b: seq<string>, c: string)
    ensures Without(a + b, c) == Without(a, c) + Without(b, c)
  {
    if a == [] {
      assert a + b == b;
    } else {
      assert (a + b)[0] == a[0];
      assert (a + b)[1..] == a[1..] + b;
      WithoutAppend(a[1..], b, c);
    }
  }

  lemma {:induction false} WithoutNoDuplicates(s: seq<string>, c: string)
    requires NoDuplicates(s)
    ensures NoDuplicates(Without(s, c))
  {
    if s != [] {
      assert NoDuplicates(s[1..]);
      WithoutNoDuplicates(s[1..], c);
      assert s[0] !in s[1..];
    }
  }

  /** A category button: a selected category is removed, any other one is
      added at the end. */
  function Toggle(selected: seq<string>, c: string): (r: seq<string>)
    ensures c in selected ==> c !in r && |r| < |selected|
    ensures c !in selected ==> r == selected + [c]
    ensures forall x :: x != c ==> (x in r <==> x in selected)
  {
    if c in selected then Without(selected, c) else selected + [c]
  }

  /** Toggling keeps the selection free of duplicates. */
  lemma ToggleNoDuplicates(selected: seq<string>, c: string)
    requires NoDuplicates(selected)
    ensures NoDuplicates(Toggle(selected, c))
  {
    if c in selected {
      WithoutNoDuplicates(selected, c);
    }
  }

  /** Selecting a category and deselecting it again restores the selection. */
  lemma ToggleTwice(selected: seq<string>, c: string)
    requires c !in selected
    ensures Toggle(Toggle(selected, c), c) == selected
  {
    WithoutAppend(selected, [c], c);
    assert Without([c], c) == [];
  }

  /** What confirming stores as `images`: one reference per uploaded file, in
      order; without files, the cover of the first selected category, or the
      default image when nothing is selected. */
  function ImagesFor(files: seq<File>, selected: seq<string>, objectUrl: File -> string): (r: seq<string>)
    requires |selected| > 0 ==> selected[0] in CategoryToImage
    ensures |files| > 0 ==> r == ObjectUrls(files, objectUrl)
    ensures |files| == 0 && |selected| > 0 ==> r == [CategoryToImage[selected[0]]]
    ensures |files| == 0 && |selected| == 0 ==> r == [DefaultImage]
    ensures |r| == if |files| > 0 then |files| else 1
  {
    if |files| > 0 then ObjectUrls(files, objectUrl)
    else [if |selected| > 0 then CategoryToImage[selected[0]] else DefaultImage]
  }

  /** The item a confirmed request becomes. */
  function NewPrayer(id: int, title: string, selected: seq<string>, description: string,
                     currentUser: string, today: string, images: seq<string>): (p: PrayerItem)
    ensures p.id == id && p.userName == currentUser && p.date == today && p.images == images
    ensures p.title == Some(Trim(title)) && p.description == Trim(description) && p.category == selected
    ensures p.prayCount == 0 && p.status == Some(Pending) && p.comments == None
    ensures Trim(p.title.value) == p.title.value && Trim(p.description) == p.description
  {
    TrimIdempotent(title);
    TrimIdempotent(description);
    PrayerItem(id, Some(Trim(title)), selected, Trim(description), currentUser, 0, today, images, None, Some(Pending))
  }

  class Form {
    const currentUser: string
    var title: string
    var description: string
    var selectedCategories: seq<string>
    var imageFiles: seq<File>
    var imagePreviews: seq<string>
    var isPreview: bool

    /** The required fields: a title and a description that are not blank,
        and at least one category. */
    predicate Complete()
      reads this
    {
      Trim(title) != "" && Trim(description) != "" && |selectedCategories| > 0
    }

    /** Complete means: title and description each hold a character that is
        not white space, and at least one category is chosen. */
    lemma CompleteMeans()
      ensures Complete() <==> !AllSpace(title) && !AllSpace(description) && selectedCategories != []
    {
      TrimEmptyIff(title);
      TrimEmptyIff(description);
    }

    /** Files and previews stay side by side and within the cap, the selection
        holds offered categories once each, and the preview is only reached
        with a complete form. */
    ghost predicate Valid()
      reads this
    {
      && |imageFiles| == |imagePreviews| <= MaxImages
      && NoDuplicates(selectedCategories)
      && (forall c :: c in selectedCategories ==> c in CategoryOptions && c in CategoryToImage)
      && (isPreview ==> Complete())
    }

    constructor (currentUser: string)
      ensures Valid()
      ensures this.currentUser == currentUser
      ensures title == "" && description == "" && selectedCategories == []
      ensures imageFiles == [] && imagePreviews == [] && !isPreview
    {
      this.currentUser := currentUser;
      title, description, selectedCategories := "", "", [];
      imageFiles, imagePreviews, isPreview := [], [], false;
    }

    method SetTitle(text: string)
      requires Valid() && !isPreview
      modifies this`title
      ensures Valid() && title == text
    {
      title := text;
    }

    method SetDescription(text: string)
      requires Valid() && !isPreview
      modifies this`description
      ensures Valid() && description == text
    {
      description := text;
    }

    /** A category button; the buttons are exactly the offered categories. */
    method ToggleCategory(c: string)
      requires Valid() && !isPreview && c in CategoryOptions
      modifies this`selectedCategories
      ensures Valid()
      ensures selectedCategories == Toggle(old(selectedCategories), c)
    {
      ToggleNoDuplicates(selectedCategories, c);
      CategoryTableComplete();
      selectedCategories := Toggle(selectedCategories, c);
    }

    /** New photos picked: a batch that would take the total above five is
        refused as a whole; otherwise files and previews grow by the batch, in
        order, one preview per file. */
    method ImageChange(newFiles: seq<File>, objectUrl: File -> string) returns (rejected: bool)
      requires Valid()
      modifies this`imageFiles, this`imagePreviews
      ensures Valid()
      ensures rejected <==> |old(imageFiles)| + |newFiles| > MaxImages
      ensures rejected ==> imageFiles == old(imageFiles) && imagePreviews == old(imagePreviews)
      ensures !rejected ==> imageFiles == old(imageFiles) + newFiles
      ensures !rejected ==> imagePreviews == old(imagePreviews) + ObjectUrls(newFiles, objectUrl)
      ensures Zip(imageFiles, imagePreviews) ==
        if rejected then Zip(old(imageFiles), old(imagePreviews))
        else Zip(old(imageFiles), old(imagePreviews)) + Zip(newFiles, ObjectUrls(newFiles, objectUrl))
    {
      if |imageFiles| + |newFiles| > MaxImages {
        return true;
      }
      ZipAppend(imageFiles, imagePreviews, newFiles, ObjectUrls(newFiles, objectUrl));
      imageFiles := imageFiles + newFiles;
      imagePreviews := imagePreviews + ObjectUrls(newFiles, objectUrl);
      return false;
    }

    /** The remove button on preview `index`: the same position goes from
        both lists, so every remaining preview still belongs to its file. */
    method RemoveImageAt(index: int)
      requires Valid()
      modifies this`imageFiles, this`imagePreviews
      ensures Valid()
      ensures imagePreviews == DropIndex(old(imagePreviews), index)
      ensures imageFiles == DropIndex(old(imageFiles), index)
      ensures Zip(imageFiles, imagePreviews) == DropIndex(Zip(old(imageFiles), old(imagePreviews)), index)
    {
      DropIndexZip(imageFiles, imagePreviews, index);
      var files, previews := DropIndex(imageFiles, index), DropIndex(imagePreviews, index);
      assert |files| == |previews| <= |imageFiles|;
      imagePreviews := previews;
      imageFiles := files;
    }

    /** Submitting the form opens the preview exactly when the required
        fields are filled in; otherwise nothing changes. */
    method Submit() returns (ok: bool)
      requires Valid() && !isPreview
      modifies this`isPreview
      ensures Valid()
      ensures ok <==> old(Complete())
      ensures isPreview == ok
    {
      if !Complete() {
        return false;
      }
      isPreview := true;
      return true;
    }

    method BackToEdit()
      requires Valid()
      modifies this`isPreview
      ensures Valid() && !isPreview
    {
      isPreview := false;
    }

    /** Confirming the preview: the new item, built from the form with the
        given id and date, goes in front of the existing items, which follow
        unchanged. */
    method Confirm(now: int, today: string, objectUrl: File -> string, prayers: seq<PrayerItem>)
      returns (newPrayers: seq<PrayerItem>)
      requires Valid() && isPreview
      modifies this`isPreview
      ensures Valid() && !isPreview
      ensures |newPrayers| == |prayers| + 1 && newPrayers[1..] == prayers
      ensures newPrayers[0] == NewPrayer(now, title, selectedCategories, description, currentUser, today,
                                         ImagesFor(imageFiles, selectedCategories, objectUrl))
    {
      var images := ImagesFor(imageFiles, selectedCategories, objectUrl);
      newPrayers := [NewPrayer(now, title, selectedCategories, description, currentUser, today, images)] + prayers;
      isPreview := false;
    }
  }
}
