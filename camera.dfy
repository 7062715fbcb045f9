/**
 * A pinhole camera: its focal length and aperture, and the orthographic
 * matrix that its field of view gives for a pair of clipping planes.
 */
module Camera {
  import opened Wrappers
  import opened Algebra
  import Raster

  /** `CameraSpec`: focal length and aperture size. */
  datatype CameraSpec = CameraSpec(focalLength: real, apertureWidth: real, apertureHeight: real)

  /**
   * `CameraModel`: a specification with the ratios `right/near`, `left/near`,
   * `top/near` and `bottom/near` of its field of view.
   */
  datatype CameraModel = CameraModel(spec: CameraSpec, lOverN: real, rOverN: real, tOverN: real, bOverN: real)
  {
    /** The ratios are the ones `CameraModel::new` derives from the specification. */
    predicate Valid() {
      && spec.focalLength != 0.0
      && rOverN * (2.0 * spec.focalLength) == spec.apertureWidth
      && tOverN * (2.0 * spec.focalLength) == spec.apertureHeight
      && lOverN == -rOverN
      && bOverN == -tOverN
    }
  }

  /**
   * `CameraModel::new(spec)`: half the aperture over the focal length gives
   * the right and top ratios; the view is symmetric about the axis.
   */
  function NewModel(spec: CameraSpec): (c: CameraModel)
    requires spec.focalLength != 0.0
    ensures c.spec == spec
    ensures c.Valid()
  {
    var rOverN := spec.apertureWidth / (2.0 * spec.focalLength);
    var tOverN := spec.apertureHeight / (2.0 * spec.focalLength);
    CameraModel(spec, -rOverN, rOverN, tOverN, -tOverN)
  }

  /**
   * `CameraModel::from_spec(focal_length, aperture_width, aperture_height)`:
   * the camera of the specification with these three values.
   */
  function FromSpec(focalLength: real, apertureWidth: real, apertureHeight: real): (c: CameraModel)
    requires focalLength != 0.0
    ensures c.spec == CameraSpec(focalLength, apertureWidth, apertureHeight)
    ensures c.Valid()
  {
    NewModel(CameraSpec(focalLength, apertureWidth, apertureHeight))
  }

  /**
   * `get_matrix(near, far)`: the orthographic matrix of the box the camera
   * sees between the two planes, with the ratios scaled by `near`. It fails
   * like `orthographic_matrix` unless `near > far`. The box is centred on the
   * axis, so the matrix has no x or y offset, and its scales are fixed by the
   * focal length, the aperture and `near`.
   */
  function GetMatrix(c: CameraModel, near: real, far: real): (r: Option<Mat4>)
    requires c.Valid()
    requires near > far ==> near != 0.0 && c.spec.apertureWidth != 0.0 && c.spec.apertureHeight != 0.0
    ensures r.Some? <==> near > far
    ensures r.Some? ==> r.value[0][3] == 0.0 && r.value[1][3] == 0.0
    ensures r.Some? ==> r.value[0][0] * near * c.spec.apertureWidth == 2.0 * c.spec.focalLength
    ensures r.Some? ==> r.value[1][1] * near * c.spec.apertureHeight == 2.0 * c.spec.focalLength
  {
    var left := near * c.lOverN;
    var right := near * c.rOverN;
    var top := near * c.tOverN;
    var bottom := near * c.bOverN;
    assert near > far ==> right - left == 2.0 * near * c.rOverN != 0.0;
    assert near > far ==> top - bottom == 2.0 * near * c.tOverN != 0.0;
    Raster.OrthographicMatrix(left, right, top, bottom, near, far)
  }
}
