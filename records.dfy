/** The single table of the tracker: one record per income or expense transaction. */
module Records {
  import opened Dates

  datatype Option<T> = None | Some(value: T)

  /** What a lookup by id gives: the record, or the not-found failure (HTTP 404). */
  datatype Outcome<T> = Found(value: T) | NotFound

  /** The two `type` values the views query for; the column itself holds any text. */
  const INCOME: string := "income"
  const EXPENSE: string := "expense"

  /** One row of the `expense` table. Amounts are in cents; the column `type` is
      called `kind` here, `created_at` is a timestamp given as a number. */
  datatype Transaction = Transaction(
    id: int,
    description: Option<string>,
    amount: int,
    date: Date,
    category: string,
    paymentMode: string,
    kind: string,
    createdAt: int)

  /** The six fields the add and edit forms submit. */
  datatype Form = Form(
    description: Option<string>,
    amount: int,
    date: Date,
    category: string,
    paymentMode: string,
    kind: string)

  /** The record the add view inserts: the form's fields, a new id and the insertion time. */
  function NewRecord(id: int, form: Form, now: int): (t: Transaction)
    ensures t.id == id && t.createdAt == now && FormOf(t) == form
  {
    Transaction(id, form.description, form.amount, form.date, form.category, form.paymentMode, form.kind, now)
  }

  /** The six user-editable fields of a record. */
  function FormOf(t: Transaction): Form {
    Form(t.description, t.amount, t.date, t.category, t.paymentMode, t.kind)
  }

  /** The record after the edit view assigns the six form fields to it. */
  function Overwrite(t: Transaction, form: Form): (r: Transaction)
    ensures r.id == t.id && r.createdAt == t.createdAt && FormOf(r) == form
  {
    t.(description := form.description, amount := form.amount, date := form.date,
       category := form.category, paymentMode := form.paymentMode, kind := form.kind)
  }

  /** Key functions for the group-by queries. */
  function CategoryOf(t: Transaction): string { t.category }
  function PaymentModeOf(t: Transaction): string { t.paymentMode }
  function DateOf(t: Transaction): Date { t.date }
  function MonthKey(t: Transaction): Month { MonthOf(t.date) }

  /** Ranks for the orderings the views ask for: newest date first, newest insert first. */
  function DateDescRank(t: Transaction): int { -Ordinal(t.date) }
  function CreatedDescRank(t: Transaction): int { -t.createdAt }
}
