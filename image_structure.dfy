/** The pure part of the image handle's construction (jduimage/_imageStructure.py): the
    dispatch on the type of the constructor's argument. Loading a file is I/O; its answer
    is a parameter. */
module ImageStructure {
  import opened Errors
  import opened Arrays

  /** What the constructor can be given: a path string, a NumPy array, or anything else. */
  datatype Input = PathInput(path: string) | ArrayInput(ndarray: Data) | OtherInput

  /** The array the constructor stores. For a path, `loaded` is what the file system and
      OpenCV's decoder answer: None when the path does not exist and the decoded array
      otherwise. An array is stored as it is given: no conversion and no copy. */
  function FromInput(input: Input, loaded: Option<Data>): (r: Result<Data>)
    ensures r == Err(TypeError("Bad type")) <==> input.OtherInput?
    ensures input.ArrayInput? ==> r == Ok(input.ndarray)
    ensures input.PathInput? ==> (r.Ok? <==> loaded.Some?)
    ensures input.PathInput? && loaded.Some? ==> r.value == loaded.value
    ensures input.PathInput? && loaded.None? ==>
              r.error == ValueError("image at " + input.path + " not found")
  {
    match input
    case OtherInput => Err(TypeError("Bad type"))
    case PathInput(path) =>
      (match loaded
       case None => Err(ValueError("image at " + path + " not found"))
       case Some(d) => Ok(d))
    case ArrayInput(a) => Ok(a)
  }
}
