/** The add-service dialog: its draft, per-field error messages, the image
    picker, validation on submit and the multipart payload it hands to its
    parent. */
module ServiceForm {
  import opened Common

  /** The largest accepted image: 5 MiB. */
  const MaxImageBytes: nat := 5 * 1024 * 1024

  const NameRequired: string := "Service name is required"
  const DescriptionRequired: string := "Description is required"
  const ImageRequired: string := "Image is required"
  const PriceRequired: string := "Price is required"
  const DurationRequired: string := "Duration is required"
  const CategoryRequired: string := "Category is required"
  const AvailabilityRequired: string := "Select at least one day"
  const PriceInvalid: string := "Price must be a positive number"
  const DiscountInvalid: string := "Discount must be between 0 and 100"
  const DurationInvalid: string := "Duration must be at least 1 hour"

  /** The keys an error can be stored under, one per input. */
  datatype Field = NameKey | DescriptionKey | ImageKey | PriceKey | DurationKey | CategoryKey | AvailabilityKey | DiscountKey

  /** The form's values, all as typed; `availability` in selection order. */
  datatype Draft = Draft(
    name: string,
    description: string,
    price: string,
    discount: string,
    duration: string,
    availability: seq<string>,
    category: string)

  datatype File = File(fileName: string, mime: string, size: nat)

  /** Input to message; a message of "" is a cleared error. */
  type Errors = map<Field, string>

  datatype Dialog = Dialog(draft: Draft, file: Option<File>, errors: Errors, loading: bool)

  /** The inputs that go through the shared change handler. */
  datatype TextField = NameField | DescriptionField | PriceField | DiscountField | DurationField

  /** One entry of the multipart body. */
  datatype PartValue = Text(text: string) | Blob(file: File)
  datatype Part = Part(field: string, value: PartValue)

  /** The outcome of pressing submit: the dialog afterwards, the payload handed
      to the parent (if any) and whether the dialog asked to be closed. */
  datatype Submitted = Submitted(dialog: Dialog, sent: Option<seq<Part>>, closed: bool)

  function InitialDraft(): Draft {
    Draft("", "", "", "0", "", [], "")
  }

  function InitialDialog(): Dialog {
    Dialog(InitialDraft(), None, map[], false)
  }

  function Key(f: TextField): Field {
    match f
    case NameField => NameKey
    case DescriptionField => DescriptionKey
    case PriceField => PriceKey
    case DiscountField => DiscountKey
    case DurationField => DurationKey
  }

  function TextOf(d: Draft, f: TextField): string {
    match f
    case NameField => d.name
    case DescriptionField => d.description
    case PriceField => d.price
    case DiscountField => d.discount
    case DurationField => d.duration
  }

  /** An error is on screen when its message is non-empty. */
  predicate Shown(errors: Errors, k: Field) {
    k in errors && errors[k] != ""
  }

  /** Blanks the message under `k` if one is showing; every other entry is kept. */
  function ClearError(errors: Errors, k: Field): (r: Errors)
    ensures r.Keys == errors.Keys
    ensures forall j :: Shown(r, j) <==> Shown(errors, j) && j != k
    ensures forall j :: j in errors && j != k ==> r[j] == errors[j]
    ensures !Shown(errors, k) ==> r == errors
  {
    if Shown(errors, k) then errors[k := ""] else errors
  }

  /** Typing into a text input replaces that input's value and clears that
      input's error, and nothing else. */
  function HandleChange(s: Dialog, f: TextField, v: string): (r: Dialog)
    ensures TextOf(r.draft, f) == v
    ensures forall g :: g != f ==> TextOf(r.draft, g) == TextOf(s.draft, g)
    ensures r.draft.availability == s.draft.availability && r.draft.category == s.draft.category
    ensures r.file == s.file && r.loading == s.loading
    ensures forall k :: Shown(r.errors, k) <==> Shown(s.errors, k) && k != Key(f)
    ensures forall k :: k in s.errors && k != Key(f) ==> k in r.errors && r.errors[k] == s.errors[k]
  {
    var d := s.draft;
    var d' := match f
      case NameField => d.(name := v)
      case DescriptionField => d.(description := v)
      case PriceField => d.(price := v)
      case DiscountField => d.(discount := v)
      case DurationField => d.(duration := v);
    s.(draft := d', errors := ClearError(s.errors, Key(f)))
  }

  /** Picking a category: the same rule for the `category` key. */
  function HandleCategoryChange(s: Dialog, v: string): (r: Dialog)
    ensures r.draft == s.draft.(category := v)
    ensures r.file == s.file && r.loading == s.loading
    ensures forall k :: Shown(r.errors, k) <==> Shown(s.errors, k) && k != CategoryKey
    ensures forall k :: k in s.errors && k != CategoryKey ==> k in r.errors && r.errors[k] == s.errors[k]
  {
    s.(draft := s.draft.(category := v), errors := ClearError(s.errors, CategoryKey))
  }

  /** Changing the selected days: the same rule for the `availability` key. */
  function HandleAvailabilityChange(s: Dialog, days: seq<string>): (r: Dialog)
    ensures r.draft == s.draft.(availability := days)
    ensures r.file == s.file && r.loading == s.loading
    ensures forall k :: Shown(r.errors, k) <==> Shown(s.errors, k) && k != AvailabilityKey
    ensures forall k :: k in s.errors && k != AvailabilityKey ==> k in r.errors && r.errors[k] == s.errors[k]
  {
    s.(draft := s.draft.(availability := days), errors := ClearError(s.errors, AvailabilityKey))
  }

  /** An image type and at most 5 MiB. */
  predicate Acceptable(f: File) {
    StartsWith(f.mime, "image/") && f.size <= MaxImageBytes
  }

  /** The file picker: a rejected or cancelled pick changes nothing (a toast
      is shown instead); an accepted one replaces the selected file. Errors
      are not touched, so an "Image is required" message outlives the pick. */
  function HandleFileSelect(s: Dialog, picked: Option<File>): (r: Dialog)
    ensures picked.Some? && Acceptable(picked.value) ==> r == s.(file := picked)
    ensures !(picked.Some? && Acceptable(picked.value)) ==> r == s
  {
    match picked
    case None => s
    case Some(f) =>
      if !StartsWith(f.mime, "image/") then s
      else if f.size > 5 * 1024 * 1024 then s
      else s.(file := Some(f))
  }

  function HandleRemoveImage(s: Dialog): (r: Dialog)
    ensures r.file == None
    ensures r.draft == s.draft && r.errors == s.errors && r.loading == s.loading
  {
    s.(file := None)
  }

  /** `Number(x)` is a number and at least 0. */
  predicate PriceOk(n: Option<real>) {
    n.Some? && n.value >= 0.0
  }

  predicate DiscountOk(n: Option<real>) {
    n.Some? && 0.0 <= n.value <= 100.0
  }

  predicate DurationOk(n: Option<real>) {
    n.Some? && n.value >= 1.0
  }

  /** Every input passes its check: the required ones are present, price and
      duration read as numbers in range, and a discount is empty or in range. */
  predicate Valid(d: Draft, file: Option<File>, parse: string -> Option<real>) {
    && d.name != "" && d.description != "" && file.Some? && d.category != "" && d.availability != []
    && d.price != "" && PriceOk(parse(d.price))
    && d.duration != "" && DurationOk(parse(d.duration))
    && (d.discount == "" || DiscountOk(parse(d.discount)))
  }

  /** Records `message` under `k` when `missing` holds. */
  function Require(e: Errors, missing: bool, k: Field, message: string): Errors {
    if missing then e[k := message] else e
  }

  /** The checks run on submit, in the order the dialog runs them; a later
      message for the same key overwrites an earlier one. `parse` stands for
      `Number`, with `None` for NaN. */
  function Validate(d: Draft, file: Option<File>, parse: string -> Option<real>): Errors {
    var e1 := Require(map[], d.name == "", NameKey, NameRequired);
    var e2 := Require(e1, d.description == "", DescriptionKey, DescriptionRequired);
    var e3 := Require(e2, file == None, ImageKey, ImageRequired);
    var e4 := Require(e3, d.price == "", PriceKey, PriceRequired);
    var e5 := Require(e4, d.duration == "", DurationKey, DurationRequired);
    var e6 := Require(e5, d.category == "", CategoryKey, CategoryRequired);
    var e7 := Require(e6, |d.availability| == 0, AvailabilityKey, AvailabilityRequired);
    var e8 := Require(e7, d.price != "" && !PriceOk(parse(d.price)), PriceKey, PriceInvalid);
    var e9 := Require(e8, d.discount != "" && !DiscountOk(parse(d.discount)), DiscountKey, DiscountInvalid);
    Require(e9, d.duration != "" && !DurationOk(parse(d.duration)), DurationKey, DurationInvalid)
  }

  /** Each missing required input is reported under its own key with its own
      message, and only then. */
  lemma RequiredInputsReported(d: Draft, file: Option<File>, parse: string -> Option<real>)
    ensures var e := Validate(d, file, parse);
            && (NameKey in e <==> d.name == "") && (NameKey in e ==> e[NameKey] == NameRequired)
            && (DescriptionKey in e <==> d.description == "")
            && (DescriptionKey in e ==> e[DescriptionKey] == DescriptionRequired)
            && (ImageKey in e <==> file == None) && (ImageKey in e ==> e[ImageKey] == ImageRequired)
            && (CategoryKey in e <==> d.category == "") && (CategoryKey in e ==> e[CategoryKey] == CategoryRequired)
            && (AvailabilityKey in e <==> d.availability == [])
            && (AvailabilityKey in e ==> e[AvailabilityKey] == AvailabilityRequired)
  {
    var e7 := Require(Require(Require(Require(Require(Require(Require(map[],
                d.name == "", NameKey, NameRequired),
                d.description == "", DescriptionKey, DescriptionRequired),
                file == None, ImageKey, ImageRequired),
                d.price == "", PriceKey, PriceRequired),
                d.duration == "", DurationKey, DurationRequired),
                d.category == "", CategoryKey, CategoryRequired),
                |d.availability| == 0, AvailabilityKey, AvailabilityRequired);
    var e := Validate(d, file, parse);
    assert forall k :: k != PriceKey && k != DiscountKey && k != DurationKey ==>
      (k in e <==> k in e7) && (k in e ==> e[k] == e7[k]);
  }

  /** Price and duration are reported when empty ("required") or when they do
      not read as a number in range ("invalid", overwriting); a discount only
      when non-empty and outside 0..100. */
  lemma NumericInputsReported(d: Draft, file: Option<File>, parse: string -> Option<real>)
    ensures var e := Validate(d, file, parse);
            && (PriceKey in e <==> d.price == "" || !PriceOk(parse(d.price)))
            && (PriceKey in e ==> e[PriceKey] == (if d.price == "" then PriceRequired else PriceInvalid))
            && (DurationKey in e <==> d.duration == "" || !DurationOk(parse(d.duration)))
            && (DurationKey in e ==> e[DurationKey] == (if d.duration == "" then DurationRequired else DurationInvalid))
            && (DiscountKey in e <==> d.discount != "" && !DiscountOk(parse(d.discount)))
            && (DiscountKey in e ==> e[DiscountKey] == DiscountInvalid)
  {
  }

  /** Submit finds no error exactly when every input passes its check. */
  lemma ValidExactlyWhenNoErrors(d: Draft, file: Option<File>, parse: string -> Option<real>)
    ensures Validate(d, file, parse) == map[] <==> Valid(d, file, parse)
  {
    RequiredInputsReported(d, file, parse);
    NumericInputsReported(d, file, parse);
    var e := Validate(d, file, parse);
    if Valid(d, file, parse) {
      assert forall k :: k !in e by {
        forall k ensures k !in e {
          match k
          case NameKey =>
          case DescriptionKey =>
          case ImageKey =>
          case PriceKey =>
          case DurationKey =>
          case CategoryKey =>
          case AvailabilityKey =>
          case DiscountKey =>
        }
      }
    }
  }

  /** Every reported message is non-empty, so every reported error is shown. */
  lemma ReportedErrorsShown(d: Draft, file: Option<File>, parse: string -> Option<real>)
    ensures forall k :: k in Validate(d, file, parse) ==> Shown(Validate(d, file, parse), k)
  {
    RequiredInputsReported(d, file, parse);
    NumericInputsReported(d, file, parse);
    var e := Validate(d, file, parse);
    forall k | k in e
      ensures Shown(e, k)
    {
      match k
      case NameKey =>
      case DescriptionKey =>
      case ImageKey =>
      case PriceKey =>
      case DurationKey =>
      case CategoryKey =>
      case AvailabilityKey =>
      case DiscountKey =>
    }
  }

  /** Picking a file settles the image check exactly when a file ends up
      selected: an accepted pick does, a refused or cancelled one leaves the
      check as it was. The errors are not touched, so an "Image is required"
      shown before the pick stays shown. */
  lemma FilePickSettlesCheck(s: Dialog, picked: Option<File>, parse: string -> Option<real>)
    ensures var r := HandleFileSelect(s, picked);
            && r.errors == s.errors
            && (ImageKey !in Validate(r.draft, r.file, parse)
                <==> (picked.Some? && Acceptable(picked.value)) || s.file.Some?)
  {
    var r := HandleFileSelect(s, picked);
    RequiredInputsReported(r.draft, r.file, parse);
  }

  /** When a value typed into an input passes that input's own check on the
      next submit: required text must be non-empty, price and duration must
      also read as numbers in range, and a discount may be empty. */
  predicate Settles(f: TextField, v: string, parse: string -> Option<real>) {
    match f
    case NameField => v != ""
    case DescriptionField => v != ""
    case PriceField => v != "" && PriceOk(parse(v))
    case DiscountField => v == "" || DiscountOk(parse(v))
    case DurationField => v != "" && DurationOk(parse(v))
  }

  /** Typing hides the input's error now, and the next submit reports that
      input again exactly when the typed value fails its check. */
  lemma TypingSettlesCheck(s: Dialog, f: TextField, v: string, parse: string -> Option<real>)
    ensures var r := HandleChange(s, f, v);
            && !Shown(r.errors, Key(f))
            && (Key(f) !in Validate(r.draft, r.file, parse) <==> Settles(f, v, parse))
  {
    var r := HandleChange(s, f, v);
    assert TextOf(r.draft, f) == v;
    match f
    case NameField => RequiredInputsReported(r.draft, r.file, parse);
    case DescriptionField => RequiredInputsReported(r.draft, r.file, parse);
    case PriceField => NumericInputsReported(r.draft, r.file, parse);
    case DiscountField => NumericInputsReported(r.draft, r.file, parse);
    case DurationField => NumericInputsReported(r.draft, r.file, parse);
  }

  /** Picking a category hides its error, and the next submit reports the
      category again exactly when the pick was empty. */
  lemma CategoryPickSettlesCheck(s: Dialog, v: string, parse: string -> Option<real>)
    ensures var r := HandleCategoryChange(s, v);
            && !Shown(r.errors, CategoryKey)
            && (CategoryKey !in Validate(r.draft, r.file, parse) <==> v != "")
  {
    var r := HandleCategoryChange(s, v);
    RequiredInputsReported(r.draft, r.file, parse);
  }

  /** Choosing days hides their error, and the next submit reports them again
      exactly when no day is chosen. */
  lemma DaysPickSettlesCheck(s: Dialog, days: seq<string>, parse: string -> Option<real>)
    ensures var r := HandleAvailabilityChange(s, days);
            && !Shown(r.errors, AvailabilityKey)
            && (AvailabilityKey !in Validate(r.draft, r.file, parse) <==> days != [])
  {
    var r := HandleAvailabilityChange(s, days);
    RequiredInputsReported(r.draft, r.file, parse);
  }

  /** One `availability[]` entry per selected day, in selection order. */
  function DayParts(days: seq<string>): (r: seq<Part>)
    ensures |r| == |days|
    ensures forall i :: 0 <= i < |days| ==> r[i] == Part("availability[]", Text(days[i]))
  {
    if days == [] then [] else [Part("availability[]", Text(days[0]))] + DayParts(days[1..])
  }

  function ImagePart(file: Option<File>): seq<Part> {
    match file
    case Some(f) => [Part("image", Blob(f))]
    case None => []
  }

  /** The multipart body: the six text fields in a fixed order, then the days,
      then the image when one is selected. */
  function Pack(d: Draft, file: Option<File>): (r: seq<Part>)
    ensures |r| == 6 + |d.availability| + (if file.Some? then 1 else 0)
    ensures r[..6] == [Part("name", Text(d.name)), Part("description", Text(d.description)),
                       Part("price", Text(d.price)), Part("discount", Text(d.discount)),
                       Part("duration", Text(d.duration)), Part("category", Text(d.category))]
    ensures forall i :: 0 <= i < |d.availability| ==> r[6 + i] == Part("availability[]", Text(d.availability[i]))
    ensures file.Some? ==> r[|r| - 1] == Part("image", Blob(file.value))
  {
    [Part("name", Text(d.name)), Part("description", Text(d.description)),
     Part("price", Text(d.price)), Part("discount", Text(d.discount)),
     Part("duration", Text(d.duration)), Part("category", Text(d.category))]
    + DayParts(d.availability) + ImagePart(file)
  }

  /** Submit: with any error the messages replace the old ones and nothing is
      sent; otherwise the packed draft goes to the parent, the dialog closes
      only if the parent's save resolved, and loading ends false either way.
      The draft and the selected file survive every outcome. */
  function Submit(s: Dialog, parse: string -> Option<real>, saved: bool): (r: Submitted)
    ensures r.dialog.draft == s.draft && r.dialog.file == s.file
    ensures Validate(s.draft, s.file, parse) != map[] ==>
              && r.sent == None && !r.closed
              && r.dialog.errors == Validate(s.draft, s.file, parse)
              && r.dialog.loading == s.loading
    ensures Validate(s.draft, s.file, parse) == map[] ==>
              && r.sent == Some(Pack(s.draft, s.file))
              && r.closed == saved
              && r.dialog.errors == s.errors
              && !r.dialog.loading
  {
    var e := Validate(s.draft, s.file, parse);
    if |e| > 0 then Submitted(s.(errors := e), None, false)
    else Submitted(s.(loading := false), Some(Pack(s.draft, s.file)), saved)
  }

  // ---------------------------------------------------------------------------
  // The payload read back: the receiving side of `Pack`.

  /** Splits off the leading run of `availability[]` text entries. */
  function SplitDays(parts: seq<Part>): (r: (seq<string>, seq<Part>))
    ensures |r.1| <= |parts|
  {
    if parts != [] && parts[0].field == "availability[]" && parts[0].value.Text? then
      var (days, rest) := SplitDays(parts[1..]);
      ([parts[0].value.text] + days, rest)
    else ([], parts)
  }

  function TextAt(parts: seq<Part>, i: nat, field: string): Option<string> {
    if i < |parts| && parts[i].field == field && parts[i].value.Text? then Some(parts[i].value.text)
    else None
  }

  /** Reads a multipart body in the layout `Pack` writes. */
  function Unpack(parts: seq<Part>): Option<(Draft, Option<File>)> {
    var name := TextAt(parts, 0, "name");
    var description := TextAt(parts, 1, "description");
    var price := TextAt(parts, 2, "price");
    var discount := TextAt(parts, 3, "discount");
    var duration := TextAt(parts, 4, "duration");
    var category := TextAt(parts, 5, "category");
    if name.None? || description.None? || price.None? || discount.None? || duration.None? || category.None?
    then None
    else
      var (days, rest) := SplitDays(parts[6..]);
      var d := Draft(name.value, description.value, price.value, discount.value, duration.value, days, category.value);
      if rest == [] then Some((d, None))
      else if |rest| == 1 && rest[0].field == "image" && rest[0].value.Blob? then Some((d, Some(rest[0].value.file)))
      else None
  }

  lemma {:induction false} SplitDayParts(days: seq<string>, tail: seq<Part>)
    requires tail == [] || tail[0].field != "availability[]"
    ensures SplitDays(DayParts(days) + tail) == (days, tail)
  {
    if days != [] {
      var parts := DayParts(days) + tail;
      assert DayParts(days) == [Part("availability[]", Text(days[0]))] + DayParts(days[1..]);
      assert parts[0] == Part("availability[]", Text(days[0]));
      assert parts[1..] == DayParts(days[1..]) + tail;
      SplitDayParts(days[1..], tail);
      assert SplitDays(parts) == ([days[0]] + days[1..], tail);
      assert [days[0]] + days[1..] == days;
    } else {
      assert DayParts(days) + tail == tail;
    }
  }

  /** Whatever the dialog sends reads back as exactly the draft and file it
      was packed from. */
  lemma UnpackPack(d: Draft, file: Option<File>)
    ensures Unpack(Pack(d, file)) == Some((d, file))
  {
    var p := Pack(d, file);
    assert p[6..] == DayParts(d.availability) + ImagePart(file);
    SplitDayParts(d.availability, ImagePart(file));
  }

  // ---------------------------------------------------------------------------
  // Consequences.

  /** A valid submission always carries the image as its last entry. */
  lemma ValidSubmissionCarriesImage(s: Dialog, parse: string -> Option<real>, saved: bool)
    requires Submit(s, parse, saved).sent.Some?
    ensures var p := Submit(s, parse, saved).sent.value;
            s.file.Some? && p[|p| - 1] == Part("image", Blob(s.file.value))
  {
  }

  /** Removing the image always blocks the next submit with an image error. */
  lemma RemovedImageBlocksSubmit(s: Dialog, parse: string -> Option<real>, saved: bool)
    ensures var r := Submit(HandleRemoveImage(s), parse, saved);
            r.sent == None && r.dialog.errors[ImageKey] == ImageRequired
  {
  }

  /** Boundaries of the numeric checks, for a `Number` that reads these texts
      as expected: a price of -1 and a discount of 150 are rejected, a price
      of 0 and discounts of 0 and 100 pass, and so does a duration of 1. */
  lemma NumericBoundaries(d: Draft, file: Option<File>, parse: string -> Option<real>)
    requires parse("-1") == Some(-1.0) && parse("0") == Some(0.0)
    requires parse("100") == Some(100.0) && parse("150") == Some(150.0) && parse("1") == Some(1.0)
    ensures PriceKey in Validate(d.(price := "-1"), file, parse)
    ensures PriceKey !in Validate(d.(price := "0"), file, parse)
    ensures DiscountKey !in Validate(d.(discount := "0"), file, parse)
    ensures DiscountKey !in Validate(d.(discount := "100"), file, parse)
    ensures DiscountKey in Validate(d.(discount := "150"), file, parse)
    ensures DiscountKey !in Validate(d.(discount := ""), file, parse)
    ensures DurationKey !in Validate(d.(duration := "1"), file, parse)
  {
    NumericInputsReported(d.(price := "-1"), file, parse);
    NumericInputsReported(d.(price := "0"), file, parse);
    NumericInputsReported(d.(discount := "0"), file, parse);
    NumericInputsReported(d.(discount := "100"), file, parse);
    NumericInputsReported(d.(discount := "150"), file, parse);
    NumericInputsReported(d.(discount := ""), file, parse);
    NumericInputsReported(d.(duration := "1"), file, parse);
  }

  /** Exactly 5 MiB is accepted, one byte more is not, and a non-image type is
      refused whatever its size. */
  lemma FileSizeBoundary(s: Dialog, name: string)
    ensures HandleFileSelect(s, Some(File(name, "image/png", 5242880))).file == Some(File(name, "image/png", 5242880))
    ensures HandleFileSelect(s, Some(File(name, "image/png", 5242881))) == s
    ensures HandleFileSelect(s, Some(File(name, "text/plain", 0))) == s
  {
    assert StartsWith("image/png", "image/");
    assert !StartsWith("text/plain", "image/") by { assert "text/plain"[0] != "image/"[0]; }
  }
}
