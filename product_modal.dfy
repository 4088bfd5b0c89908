/**
 * The add/edit dialog: a form of four fields that is loaded from the product
 * being edited (or blanked) whenever the dialog opens, and a submit handler that
 * either records an error or hands a product to the caller and closes.
 */
module ProductModal {
  import opened Wrappers
  import opened ProductSlice

  /** The message shown when a field is missing. It mentions positivity, which is not checked. */
  const REQUIRED_MESSAGE: string := "All fields are required and stock/price must be greater than 0"

  /** The four form fields; an empty numeric input is `None` (`null`). */
  datatype FormFields = FormFields(name: string, category: string, stock: Option<int>, price: Option<int>)

  /** What a submit asks of the caller, in order: `onSave(product)`, then `onClose()`. */
  datatype Effect = Save(product: Product) | Close

  /** The values the open effect puts in the form: the edited product's fields, or blanks. */
  function Loaded(initialData: Option<Product>): (f: FormFields)
    ensures initialData.None? ==> f.name == "" && f.category == "" && f.stock.None? && f.price.None?
    ensures initialData.Some? ==> f.stock.Some? && f.price.Some?
    ensures initialData.Some? ==> f.name == initialData.value.name && f.category == initialData.value.category
    ensures initialData.Some? ==> f.stock.value == initialData.value.stock && f.price.value == initialData.value.price
  {
    match initialData
    case Some(p) => FormFields(p.name, p.category, Some(p.stock), Some(p.price))
    case None => FormFields("", "", None, None)
  }

  /** The id the saved product gets: the edited product's id when it is non-empty, otherwise ''. */
  function SavedId(initialData: Option<Product>): (id: string)
    ensures initialData.None? ==> id == ""
    ensures initialData.Some? ==> id == initialData.value.id
  {
    if initialData.Some? && initialData.value.id != "" then initialData.value.id else ""
  }

  /** `handleSubmit`'s decision: the error message, or the product passed to `onSave`. */
  function Submit(f: FormFields, initialData: Option<Product>): (r: Result<Product, string>)
    ensures r.Failure? <==> f.name == "" || f.category == "" || f.stock.None? || f.price.None?
    ensures r.Failure? ==> r.error == REQUIRED_MESSAGE
    ensures r.Success? ==> r.value.name == f.name && r.value.category == f.category
    ensures r.Success? ==> f.stock == Some(r.value.stock) && f.price == Some(r.value.price)
    ensures r.Success? ==> (r.value.id != "" <==> initialData.Some? && initialData.value.id != "")
    ensures r.Success? && initialData.Some? ==> r.value.id == initialData.value.id
  {
    if f.name == "" || f.category == "" || f.stock.None? || f.price.None? then
      Failure(REQUIRED_MESSAGE)
    else
      Success(Product(SavedId(initialData), f.name, f.category, f.stock.value, f.price.value))
  }

  /** A numeric input's change handler: the empty string is `null`, anything else goes through `toNumber`. */
  function NumericInput(raw: string, toNumber: string -> int): (r: Option<int>)
    ensures r.None? <==> raw == ""
    ensures r.Some? ==> r.value == toNumber(raw)
  {
    if raw == "" then None else Some(toNumber(raw))
  }

  /** The dialog's form state. */
  class ModalForm {
    var name: string
    var category: string
    var stock: Option<int>
    var price: Option<int>
    var error: string

    function Fields(): FormFields
      reads this
    {
      FormFields(name, category, stock, price)
    }

    constructor ()
      ensures Fields() == FormFields("", "", None, None) && error == ""
    {
      name, category, stock, price, error := "", "", None, None, "";
    }

    /** The effect run when `isOpen` changes: loads or blanks the fields; the error is kept. */
    method OnOpenChange(initialData: Option<Product>)
      modifies this`name, this`category, this`stock, this`price
      ensures Fields() == Loaded(initialData)
      ensures error == old(error)
    {
      if initialData.Some? {
        name := initialData.value.name;
        category := initialData.value.category;
        stock := Some(initialData.value.stock);
        price := Some(initialData.value.price);
      } else {
        name := "";
        category := "";
        stock := None;
        price := None;
      }
    }

    method SetName(value: string)
      modifies this`name
      ensures name == value
    {
      name := value;
    }

    method SetCategory(value: string)
      modifies this`category
      ensures category == value
    {
      category := value;
    }

    method SetStockInput(raw: string, toNumber: string -> int)
      modifies this`stock
      ensures stock == NumericInput(raw, toNumber)
    {
      stock := if raw == "" then None else Some(toNumber(raw));
    }

    method SetPriceInput(raw: string, toNumber: string -> int)
      modifies this`price
      ensures price == NumericInput(raw, toNumber)
    {
      price := if raw == "" then None else Some(toNumber(raw));
    }

    /**
     * `handleSubmit`: on a missing field sets the error and asks nothing of the
     * caller; otherwise asks for exactly one save followed by one close, and
     * leaves the error as it was.
     */
    method HandleSubmit(initialData: Option<Product>) returns (effects: seq<Effect>)
      modifies this`error
      ensures Submit(Fields(), initialData).Failure? ==> effects == [] && error == REQUIRED_MESSAGE
      ensures Submit(Fields(), initialData).Success? ==>
        effects == [Save(Submit(Fields(), initialData).value), Close] && error == old(error)
    {
      if name == "" || category == "" || stock.None? || price.None? {
        error := REQUIRED_MESSAGE;
        return [];
      }
      var id := if initialData.Some? && initialData.value.id != "" then initialData.value.id else "";
      var product := Product(id, name, category, stock.value, price.value);
      effects := [Save(product), Close];
    }
  }

  /** Opening the dialog on a product and submitting unchanged saves that very product. */
  lemma EditRoundTrip(p: Product)
    requires p.name != "" && p.category != ""
    ensures Submit(Loaded(Some(p)), Some(p)) == Success(p)
  {
  }

  /** A freshly blanked form cannot be submitted. */
  lemma BlankFormRejected()
    ensures Submit(Loaded(None), None) == Failure(REQUIRED_MESSAGE)
  {
  }

  /** Whatever the edits, a product saved from an edit dialog keeps the edited product's id. */
  lemma EditKeepsId(f: FormFields, p: Product)
    requires Submit(f, Some(p)).Success?
    ensures Submit(f, Some(p)).value.id == p.id
  {
  }

  /** Stock and price pass validation whatever their sign, despite the message. */
  lemma SignNotChecked(name: string, category: string, stock: int, price: int)
    requires name != "" && category != ""
    ensures Submit(FormFields(name, category, Some(stock), Some(price)), None).Success?
    ensures Submit(FormFields(name, category, Some(stock), Some(price)), None).value.stock == stock
    ensures Submit(FormFields(name, category, Some(stock), Some(price)), None).value.price == price
  {
  }
}
