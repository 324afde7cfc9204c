/** What a button shows: the loading spinner or a text label. */
module UiTypes {
  datatype ButtonFace = Spinner | Label(text: string)
}
