/** Failure-carrying datatypes shared by every part of the model.

    The add-on reports problems by raising Python exceptions (IndexError from
    numpy, KeyError from Blender collections, RuntimeError from operators).
    Here each of those becomes an explicit `Failure` value.
 */
module Results {

  datatype Option<+T> = None | Some(value: T)

  /** Why an operation of the add-on could not complete. */
  datatype Error =
    | EmptyPoseStack          // `data[0]` of an empty pose stack
    | NoVertices              // poses of zero points give no (n, nv, 3) array to unpack
    | DimensionMismatch       // poses, weights or landmarks of disagreeing sizes
    | MissingShapeKeys        // `obj.data.shape_keys` is None where it is dereferenced
    | MissingKeyBlock(name: string)  // `key_blocks[name]` with no such key
    | NoNonZeroSource         // no non-zero entry to divide by
    | WeightIndexOutOfRange   // fewer weights than non-basis key blocks
    | NoLandmarkMesh          // the landmark mesh is unset where it is dereferenced
    | NoBlendshapeMesh        // the blendshape mesh is unset where it is dereferenced
    | NoRetargetMesh          // the retarget mesh is unset where it is dereferenced
    | CaptureFailed           // the external landmark source raised

  datatype Result<+T> = Success(value: T) | Failure(error: Error)
}
