/** The optional value used wherever the scraper returns `None`. */
module Maybe {

  datatype Option<+T> = None | Some(value: T)
}
