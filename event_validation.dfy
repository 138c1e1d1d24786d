/** The event form rules. Each failing check reports its message, field by
    field in schema order; a number field that does not read as a number
    reports only that. */
module EventValidation {
  import opened Common
  import opened EventTypes

  /** What the form hands on once it passes: the schema's nine fields and no
      others (the schema strips unknown keys). The category is read as one of
      the nine categories, which is all the form's select offers. */
  datatype EventDraft = EventDraft(
    title: string,
    description: string,
    date: Date,
    time: string,
    location: string,
    price: int,
    category: Category,
    imageUrl: string,
    capacity: int)

  /** The event form as typed. Date, price and capacity are the numbers their
      text reads as (a date as milliseconds since the epoch, NaN when it is
      not a date). */
  datatype EventForm = EventForm(
    title: string,
    description: string,
    date: Number,
    time: string,
    location: string,
    price: Number,
    category: string,
    imageUrl: string,
    capacity: Number)

  const MaxPrice := 1000000
  const MaxCapacity := 100000

  function PriceIssues(price: Number): seq<string> {
    if price.NaN? then ["Price must be a number"]
    else
      (if price.v >= 0 then [] else ["Price must be 0 or greater"]) +
      (if price.v <= MaxPrice then [] else ["Price cannot exceed ₹10,00,000"])
  }

  function CapacityIssues(capacity: Number): seq<string> {
    if capacity.NaN? then ["Capacity must be a number"]
    else
      (if capacity.v >= 1 then [] else ["Capacity must be at least 1"]) +
      (if capacity.v <= MaxCapacity then [] else ["Capacity cannot exceed 100,000"])
  }

  /** `eventValidationSchema` at time now; the URL format check is a parameter. */
  function EventIssues(f: EventForm, now: Time, isUrl: string -> bool): seq<string> {
    (if Utf16Length(f.title) >= 5 then [] else ["Title must be at least 5 characters"]) +
    (if Utf16Length(f.description) >= 20 then [] else ["Description must be at least 20 characters"]) +
    (if f.date.Num? && f.date.v > now then [] else ["Event date must be in the future"]) +
    (if Utf16Length(f.location) >= 5 then [] else ["Location must be at least 5 characters"]) +
    PriceIssues(f.price) +
    (if Utf16Length(f.category) >= 1 then [] else ["Please select a category"]) +
    (if isUrl(f.imageUrl) then [] else ["Please enter a valid image URL"]) +
    CapacityIssues(f.capacity)
  }

  lemma PriceIssuesMeaning(price: Number)
    ensures PriceIssues(price) == [] <==> price.Num? && 0 <= price.v <= MaxPrice
  {
  }

  lemma CapacityIssuesMeaning(capacity: Number)
    ensures CapacityIssues(capacity) == [] <==> capacity.Num? && 1 <= capacity.v <= MaxCapacity
  {
  }

  /** A form passes iff title and location are at least 5 UTF-16 code units
      long, the description at least 20, the date is strictly after now, the price is a
      number in [0, 1000000], a category is chosen, the image URL is well
      formed, and the capacity is a whole number in [1, 100000]. */
  lemma EventIssuesMeaning(f: EventForm, now: Time, isUrl: string -> bool)
    ensures EventIssues(f, now, isUrl) == [] <==>
      && Utf16Length(f.title) >= 5
      && Utf16Length(f.description) >= 20
      && f.date.Num? && f.date.v > now
      && Utf16Length(f.location) >= 5
      && f.price.Num? && 0 <= f.price.v <= MaxPrice
      && Utf16Length(f.category) >= 1
      && isUrl(f.imageUrl)
      && f.capacity.Num? && 1 <= f.capacity.v <= MaxCapacity
  {
    PriceIssuesMeaning(f.price);
    CapacityIssuesMeaning(f.capacity);
  }
}
