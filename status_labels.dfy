/** The status badge lookups of the order screens: a record from the four
    known statuses to a colour class or a label, with a fallback for any other
    string. The worker and manager panels carry identical copies. */
module StatusLabels {

  predicate Known(status: string)
  {
    status == "created" || status == "in_progress" || status == "completed" || status == "shipped"
  }

  /** `colors[status] || 'bg-gray-500'`. */
  function StatusColor(status: string): (c: string)
    ensures status == "created" ==> c == "bg-red-500"
    ensures status == "in_progress" ==> c == "bg-yellow-500"
    ensures status == "completed" ==> c == "bg-green-500"
    ensures status == "shipped" ==> c == "bg-blue-500"
    ensures c == "bg-gray-500" <==> !Known(status)
  {
    if status == "created" then "bg-red-500"
    else if status == "in_progress" then "bg-yellow-500"
    else if status == "completed" then "bg-green-500"
    else if status == "shipped" then "bg-blue-500"
    else "bg-gray-500"
  }

  /** `texts[status] || status`. */
  function StatusText(status: string): (t: string)
    ensures status == "created" ==> t == "Создана"
    ensures status == "in_progress" ==> t == "Выполняется"
    ensures status == "completed" ==> t == "Исполнена"
    ensures status == "shipped" ==> t == "Отправлено"
    ensures !Known(status) ==> t == status
  {
    if status == "created" then "Создана"
    else if status == "in_progress" then "Выполняется"
    else if status == "completed" then "Исполнена"
    else if status == "shipped" then "Отправлено"
    else status
  }

  /** The four known statuses get four different colours. */
  lemma ColorsDistinct(a: string, b: string)
    requires Known(a) && Known(b) && a != b
    ensures StatusColor(a) != StatusColor(b)
  {
  }

  /** The four known statuses get four different labels, none of which is a
      status name itself. */
  lemma TextsDistinct(a: string, b: string)
    requires Known(a) && Known(b) && a != b
    ensures StatusText(a) != StatusText(b)
    ensures !Known(StatusText(a))
  {
  }

  /** The label alone does not identify the status: for each known status,
      an unknown status spelled like its label is shown exactly like it. */
  lemma TextCollides(status: string)
    requires Known(status)
    ensures StatusText(status) != status
    ensures StatusText(StatusText(status)) == StatusText(status)
  {
  }
}
