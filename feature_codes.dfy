/** Feature codes of the gate and the user-facing name table.
    The codes are the positions of the feature enumeration; their order is the
    output column order. */
module FeatureCodes {

  /** Number of feature codes (the enumeration's terminating `_COUNT_`). */
  const COUNT: nat := 174

  /** A code that indexes the gate's flag array. */
  type FeatureCode = c: nat | c < COUNT

  const MEAN: FeatureCode := 0
  const MEDIAN: FeatureCode := 1
  const MIN: FeatureCode := 2
  const MAX: FeatureCode := 3
  const RANGE: FeatureCode := 4
  const STANDARD_DEVIATION: FeatureCode := 5
  const SKEWNESS: FeatureCode := 6
  const KURTOSIS: FeatureCode := 7
  const MEAN_ABSOLUTE_DEVIATION: FeatureCode := 8
  const ENERGY: FeatureCode := 9
  const ROOT_MEAN_SQUARED: FeatureCode := 10
  const ENTROPY: FeatureCode := 11
  const MODE: FeatureCode := 12
  const UNIFORMITY: FeatureCode := 13
  const P10: FeatureCode := 14
  const P25: FeatureCode := 15
  const P75: FeatureCode := 16
  const P90: FeatureCode := 17
  const INTERQUARTILE_RANGE: FeatureCode := 18
  const ROBUST_MEAN_ABSOLUTE_DEVIATION: FeatureCode := 19
  const WEIGHTED_CENTROID_Y: FeatureCode := 20
  const WEIGHTED_CENTROID_X: FeatureCode := 21
  const AREA_PIXELS_COUNT: FeatureCode := 22
  const CENTROID_X: FeatureCode := 23
  const CENTROID_Y: FeatureCode := 24
  const BBOX_YMIN: FeatureCode := 25
  const BBOX_XMIN: FeatureCode := 26
  const BBOX_HEIGHT: FeatureCode := 27
  const BBOX_WIDTH: FeatureCode := 28
  const MAJOR_AXIS_LENGTH: FeatureCode := 29
  const MINOR_AXIS_LENGTH: FeatureCode := 30
  const ECCENTRICITY: FeatureCode := 31
  const ORIENTATION: FeatureCode := 32
  const NUM_NEIGHBORS: FeatureCode := 33
  const EXTENT: FeatureCode := 34
  const ASPECT_RATIO: FeatureCode := 35
  const CONVEX_HULL_AREA: FeatureCode := 36
  const SOLIDITY: FeatureCode := 37
  const PERIMETER: FeatureCode := 38
  const EQUIVALENT_DIAMETER: FeatureCode := 39
  const EDGE_MEAN_INTENSITY: FeatureCode := 40
  const EDGE_STDDEV_INTENSITY: FeatureCode := 41
  const EDGE_MAX_INTENSITY: FeatureCode := 42
  const EDGE_MIN_INTENSITY: FeatureCode := 43
  const CIRCULARITY: FeatureCode := 44
  const EROSION_PIXELS: FeatureCode := 45
  const CELLPROFILER_INTENSITY_INTEGRATEDINTENSITYEDGE: FeatureCode := 46
  const CELLPROFILER_INTENSITY_MAXINTENSITYEDGE: FeatureCode := 47
  const CELLPROFILER_INTENSITY_MEANINTENSITYEDGE: FeatureCode := 48
  const CELLPROFILER_INTENSITY_MININTENSITYEDGE: FeatureCode := 49
  const CELLPROFILER_INTENSITY_STDDEVINTENSITYEDGE: FeatureCode := 50
  const EXTREMA_P1_X: FeatureCode := 51
  const EXTREMA_P1_Y: FeatureCode := 52
  const EXTREMA_P2_X: FeatureCode := 53
  const EXTREMA_P2_Y: FeatureCode := 54
  const EXTREMA_P3_X: FeatureCode := 55
  const EXTREMA_P3_Y: FeatureCode := 56
  const EXTREMA_P4_X: FeatureCode := 57
  const EXTREMA_P4_Y: FeatureCode := 58
  const EXTREMA_P5_X: FeatureCode := 59
  const EXTREMA_P5_Y: FeatureCode := 60
  const EXTREMA_P6_X: FeatureCode := 61
  const EXTREMA_P6_Y: FeatureCode := 62
  const EXTREMA_P7_X: FeatureCode := 63
  const EXTREMA_P7_Y: FeatureCode := 64
  const EXTREMA_P8_X: FeatureCode := 65
  const EXTREMA_P8_Y: FeatureCode := 66
  const MIN_FERET_DIAMETER: FeatureCode := 67
  const MAX_FERET_DIAMETER: FeatureCode := 68
  const MIN_FERET_ANGLE: FeatureCode := 69
  const MAX_FERET_ANGLE: FeatureCode := 70
  const STAT_FERET_DIAM_MIN: FeatureCode := 71
  const STAT_FERET_DIAM_MAX: FeatureCode := 72
  const STAT_FERET_DIAM_MEAN: FeatureCode := 73
  const STAT_FERET_DIAM_MEDIAN: FeatureCode := 74
  const STAT_FERET_DIAM_STDDEV: FeatureCode := 75
  const STAT_FERET_DIAM_MODE: FeatureCode := 76
  const STAT_MARTIN_DIAM_MIN: FeatureCode := 77
  const STAT_MARTIN_DIAM_MAX: FeatureCode := 78
  const STAT_MARTIN_DIAM_MEAN: FeatureCode := 79
  const STAT_MARTIN_DIAM_MEDIAN: FeatureCode := 80
  const STAT_MARTIN_DIAM_STDDEV: FeatureCode := 81
  const STAT_MARTIN_DIAM_MODE: FeatureCode := 82
  const STAT_NASSENSTEIN_DIAM_MIN: FeatureCode := 83
  const STAT_NASSENSTEIN_DIAM_MAX: FeatureCode := 84
  const STAT_NASSENSTEIN_DIAM_MEAN: FeatureCode := 85
  const STAT_NASSENSTEIN_DIAM_MEDIAN: FeatureCode := 86
  const STAT_NASSENSTEIN_DIAM_STDDEV: FeatureCode := 87
  const STAT_NASSENSTEIN_DIAM_MODE: FeatureCode := 88
  const EULER_NUMBER: FeatureCode := 89
  const POLYGONALITY_AVE: FeatureCode := 90
  const HEXAGONALITY_AVE: FeatureCode := 91
  const HEXAGONALITY_STDDEV: FeatureCode := 92
  const DIAMETER_MIN_ENCLOSING_CIRCLE: FeatureCode := 93
  const DIAMETER_CIRCUMSCRIBING_CIRCLE: FeatureCode := 94
  const DIAMETER_INSCRIBING_CIRCLE: FeatureCode := 95
  const GEODETIC_LENGTH: FeatureCode := 96
  const THICKNESS: FeatureCode := 97
  const TEXTURE_ANGULAR2NDMOMENT: FeatureCode := 98
  const TEXTURE_CONTRAST: FeatureCode := 99
  const TEXTURE_CORRELATION: FeatureCode := 100
  const TEXTURE_VARIANCE: FeatureCode := 101
  const TEXTURE_INVERSEDIFFERENCEMOMENT: FeatureCode := 102
  const TEXTURE_SUMAVERAGE: FeatureCode := 103
  const TEXTURE_SUMVARIANCE: FeatureCode := 104
  const TEXTURE_SUMENTROPY: FeatureCode := 105
  const TEXTURE_ENTROPY: FeatureCode := 106
  const TEXTURE_DIFFERENCEVARIANCE: FeatureCode := 107
  const TEXTURE_DIFFERENCEENTROPY: FeatureCode := 108
  const TEXTURE_INFOMEAS1: FeatureCode := 109
  const TEXTURE_INFOMEAS2: FeatureCode := 110
  const ZERNIKE2D: FeatureCode := 111
  const FRAC_AT_D: FeatureCode := 112
  const MEAN_FRAC: FeatureCode := 113
  const RADIAL_CV: FeatureCode := 114
  const GLRLM_SRE: FeatureCode := 115
  const GLRLM_LRE: FeatureCode := 116
  const GLRLM_GLN: FeatureCode := 117
  const GLRLM_GLNN: FeatureCode := 118
  const GLRLM_RLN: FeatureCode := 119
  const GLRLM_RLNN: FeatureCode := 120
  const GLRLM_RP: FeatureCode := 121
  const GLRLM_GLV: FeatureCode := 122
  const GLRLM_RV: FeatureCode := 123
  const GLRLM_RE: FeatureCode := 124
  const GLRLM_LGLRE: FeatureCode := 125
  const GLRLM_HGLRE: FeatureCode := 126
  const GLRLM_SRLGLE: FeatureCode := 127
  const GLRLM_SRHGLE: FeatureCode := 128
  const GLRLM_LRLGLE: FeatureCode := 129
  const GLRLM_LRHGLE: FeatureCode := 130
  const GLSZM_SAE: FeatureCode := 131
  const GLSZM_LAE: FeatureCode := 132
  const GLSZM_GLN: FeatureCode := 133
  const GLSZM_GLNN: FeatureCode := 134
  const GLSZM_SZN: FeatureCode := 135
  const GLSZM_SZNN: FeatureCode := 136
  const GLSZM_ZP: FeatureCode := 137
  const GLSZM_GLV: FeatureCode := 138
  const GLSZM_ZV: FeatureCode := 139
  const GLSZM_ZE: FeatureCode := 140
  const GLSZM_LGLZE: FeatureCode := 141
  const GLSZM_HGLZE: FeatureCode := 142
  const GLSZM_SALGLE: FeatureCode := 143
  const GLSZM_SAHGLE: FeatureCode := 144
  const GLSZM_LALGLE: FeatureCode := 145
  const GLSZM_LAHGLE: FeatureCode := 146
  const GLDM_SDE: FeatureCode := 147
  const GLDM_LDE: FeatureCode := 148
  const GLDM_GLN: FeatureCode := 149
  const GLDM_DN: FeatureCode := 150
  const GLDM_DNN: FeatureCode := 151
  const GLDM_GLV: FeatureCode := 152
  const GLDM_DV: FeatureCode := 153
  const GLDM_DE: FeatureCode := 154
  const GLDM_LGLE: FeatureCode := 155
  const GLDM_HGLE: FeatureCode := 156
  const GLDM_SDLGLE: FeatureCode := 157
  const GLDM_SDHGLE: FeatureCode := 158
  const GLDM_LDLGLE: FeatureCode := 159
  const GLDM_LDHGLE: FeatureCode := 160
  const NGTDM_COARSENESS: FeatureCode := 161
  const NGTDM_CONTRAST: FeatureCode := 162
  const NGTDM_BUSYNESS: FeatureCode := 163
  const NGTDM_COMPLEXITY: FeatureCode := 164
  const NGTDM_STRENGTH: FeatureCode := 165
  const HU_M1: FeatureCode := 166
  const HU_M2: FeatureCode := 167
  const HU_M3: FeatureCode := 168
  const HU_M4: FeatureCode := 169
  const HU_M5: FeatureCode := 170
  const HU_M6: FeatureCode := 171
  const HU_M7: FeatureCode := 172
  const GABOR: FeatureCode := 173

  /** The user-facing name table: a map from name to code, so each name occurs once.
      The entry "TEXTURE_ZERNIKE2D" names the code ZERNIKE2D. */
  const UserFacingFeatureNames: map<string, int> := map[
    "MEAN" := MEAN,
    "MEDIAN" := MEDIAN,
    "MIN" := MIN,
    "MAX" := MAX,
    "RANGE" := RANGE,
    "STANDARD_DEVIATION" := STANDARD_DEVIATION,
    "SKEWNESS" := SKEWNESS,
    "KURTOSIS" := KURTOSIS,
    "MEAN_ABSOLUTE_DEVIATION" := MEAN_ABSOLUTE_DEVIATION,
    "ENERGY" := ENERGY,
    "ROOT_MEAN_SQUARED" := ROOT_MEAN_SQUARED,
    "ENTROPY" := ENTROPY,
    "MODE" := MODE,
    "UNIFORMITY" := UNIFORMITY,
    "P10" := P10,
    "P25" := P25,
    "P75" := P75,
    "P90" := P90,
    "INTERQUARTILE_RANGE" := INTERQUARTILE_RANGE,
    "ROBUST_MEAN_ABSOLUTE_DEVIATION" := ROBUST_MEAN_ABSOLUTE_DEVIATION,
    "WEIGHTED_CENTROID_Y" := WEIGHTED_CENTROID_Y,
    "WEIGHTED_CENTROID_X" := WEIGHTED_CENTROID_X,
    "AREA_PIXELS_COUNT" := AREA_PIXELS_COUNT,
    "CENTROID_X" := CENTROID_X,
    "CENTROID_Y" := CENTROID_Y,
    "BBOX_YMIN" := BBOX_YMIN,
    "BBOX_XMIN" := BBOX_XMIN,
    "BBOX_HEIGHT" := BBOX_HEIGHT,
    "BBOX_WIDTH" := BBOX_WIDTH,
    "MAJOR_AXIS_LENGTH" := MAJOR_AXIS_LENGTH,
    "MINOR_AXIS_LENGTH" := MINOR_AXIS_LENGTH,
    "ECCENTRICITY" := ECCENTRICITY,
    "ORIENTATION" := ORIENTATION,
    "NUM_NEIGHBORS" := NUM_NEIGHBORS,
    "EXTENT" := EXTENT,
    "ASPECT_RATIO" := ASPECT_RATIO,
    "EQUIVALENT_DIAMETER" := EQUIVALENT_DIAMETER,
    "CONVEX_HULL_AREA" := CONVEX_HULL_AREA,
    "SOLIDITY" := SOLIDITY,
    "PERIMETER" := PERIMETER,
    "CIRCULARITY" := CIRCULARITY,
    "CELLPROFILER_INTENSITY_INTEGRATEDINTENSITYEDGE" := CELLPROFILER_INTENSITY_INTEGRATEDINTENSITYEDGE,
    "CELLPROFILER_INTENSITY_MAXINTENSITYEDGE" := CELLPROFILER_INTENSITY_MAXINTENSITYEDGE,
    "CELLPROFILER_INTENSITY_MEANINTENSITYEDGE" := CELLPROFILER_INTENSITY_MEANINTENSITYEDGE,
    "CELLPROFILER_INTENSITY_MININTENSITYEDGE" := CELLPROFILER_INTENSITY_MININTENSITYEDGE,
    "CELLPROFILER_INTENSITY_STDDEVINTENSITYEDGE" := CELLPROFILER_INTENSITY_STDDEVINTENSITYEDGE,
    "EXTREMA_P1_X" := EXTREMA_P1_X,
    "EXTREMA_P1_Y" := EXTREMA_P1_Y,
    "EXTREMA_P2_X" := EXTREMA_P2_X,
    "EXTREMA_P2_Y" := EXTREMA_P2_Y,
    "EXTREMA_P3_X" := EXTREMA_P3_X,
    "EXTREMA_P3_Y" := EXTREMA_P3_Y,
    "EXTREMA_P4_X" := EXTREMA_P4_X,
    "EXTREMA_P4_Y" := EXTREMA_P4_Y,
    "EXTREMA_P5_X" := EXTREMA_P5_X,
    "EXTREMA_P5_Y" := EXTREMA_P5_Y,
    "EXTREMA_P6_X" := EXTREMA_P6_X,
    "EXTREMA_P6_Y" := EXTREMA_P6_Y,
    "EXTREMA_P7_X" := EXTREMA_P7_X,
    "EXTREMA_P7_Y" := EXTREMA_P7_Y,
    "EXTREMA_P8_X" := EXTREMA_P8_X,
    "EXTREMA_P8_Y" := EXTREMA_P8_Y,
    "MIN_FERET_DIAMETER" := MIN_FERET_DIAMETER,
    "MAX_FERET_DIAMETER" := MAX_FERET_DIAMETER,
    "MIN_FERET_ANGLE" := MIN_FERET_ANGLE,
    "MAX_FERET_ANGLE" := MAX_FERET_ANGLE,
    "STAT_FERET_DIAM_MIN" := STAT_FERET_DIAM_MIN,
    "STAT_FERET_DIAM_MAX" := STAT_FERET_DIAM_MAX,
    "STAT_FERET_DIAM_MEAN" := STAT_FERET_DIAM_MEAN,
    "STAT_FERET_DIAM_MEDIAN" := STAT_FERET_DIAM_MEDIAN,
    "STAT_FERET_DIAM_STDDEV" := STAT_FERET_DIAM_STDDEV,
    "STAT_FERET_DIAM_MODE" := STAT_FERET_DIAM_MODE,
    "STAT_MARTIN_DIAM_MIN" := STAT_MARTIN_DIAM_MIN,
    "STAT_MARTIN_DIAM_MAX" := STAT_MARTIN_DIAM_MAX,
    "STAT_MARTIN_DIAM_MEAN" := STAT_MARTIN_DIAM_MEAN,
    "STAT_MARTIN_DIAM_MEDIAN" := STAT_MARTIN_DIAM_MEDIAN,
    "STAT_MARTIN_DIAM_STDDEV" := STAT_MARTIN_DIAM_STDDEV,
    "STAT_MARTIN_DIAM_MODE" := STAT_MARTIN_DIAM_MODE,
    "STAT_NASSENSTEIN_DIAM_MIN" := STAT_NASSENSTEIN_DIAM_MIN,
    "STAT_NASSENSTEIN_DIAM_MAX" := STAT_NASSENSTEIN_DIAM_MAX,
    "STAT_NASSENSTEIN_DIAM_MEAN" := STAT_NASSENSTEIN_DIAM_MEAN,
    "STAT_NASSENSTEIN_DIAM_MEDIAN" := STAT_NASSENSTEIN_DIAM_MEDIAN,
    "STAT_NASSENSTEIN_DIAM_STDDEV" := STAT_NASSENSTEIN_DIAM_STDDEV,
    "STAT_NASSENSTEIN_DIAM_MODE" := STAT_NASSENSTEIN_DIAM_MODE,
    "EULER_NUMBER" := EULER_NUMBER,
    "POLYGONALITY_AVE" := POLYGONALITY_AVE,
    "HEXAGONALITY_AVE" := HEXAGONALITY_AVE,
    "HEXAGONALITY_STDDEV" := HEXAGONALITY_STDDEV,
    "DIAMETER_MIN_ENCLOSING_CIRCLE" := DIAMETER_MIN_ENCLOSING_CIRCLE,
    "DIAMETER_CIRCUMSCRIBING_CIRCLE" := DIAMETER_CIRCUMSCRIBING_CIRCLE,
    "DIAMETER_INSCRIBING_CIRCLE" := DIAMETER_INSCRIBING_CIRCLE,
    "GEODETIC_LENGTH" := GEODETIC_LENGTH,
    "THICKNESS" := THICKNESS,
    "TEXTURE_ANGULAR2NDMOMENT" := TEXTURE_ANGULAR2NDMOMENT,
    "TEXTURE_CONTRAST" := TEXTURE_CONTRAST,
    "TEXTURE_CORRELATION" := TEXTURE_CORRELATION,
    "TEXTURE_VARIANCE" := TEXTURE_VARIANCE,
    "TEXTURE_INVERSEDIFFERENCEMOMENT" := TEXTURE_INVERSEDIFFERENCEMOMENT,
    "TEXTURE_SUMAVERAGE" := TEXTURE_SUMAVERAGE,
    "TEXTURE_SUMVARIANCE" := TEXTURE_SUMVARIANCE,
    "TEXTURE_SUMENTROPY" := TEXTURE_SUMENTROPY,
    "TEXTURE_ENTROPY" := TEXTURE_ENTROPY,
    "TEXTURE_DIFFERENCEVARIANCE" := TEXTURE_DIFFERENCEVARIANCE,
    "TEXTURE_DIFFERENCEENTROPY" := TEXTURE_DIFFERENCEENTROPY,
    "TEXTURE_INFOMEAS1" := TEXTURE_INFOMEAS1,
    "TEXTURE_INFOMEAS2" := TEXTURE_INFOMEAS2,
    "TEXTURE_ZERNIKE2D" := ZERNIKE2D,
    "GLRLM_SRE" := GLRLM_SRE,
    "GLRLM_LRE" := GLRLM_LRE,
    "GLRLM_GLN" := GLRLM_GLN,
    "GLRLM_GLNN" := GLRLM_GLNN,
    "GLRLM_RLN" := GLRLM_RLN,
    "GLRLM_RLNN" := GLRLM_RLNN,
    "GLRLM_RP" := GLRLM_RP,
    "GLRLM_GLV" := GLRLM_GLV,
    "GLRLM_RV" := GLRLM_RV,
    "GLRLM_RE" := GLRLM_RE,
    "GLRLM_LGLRE" := GLRLM_LGLRE,
    "GLRLM_HGLRE" := GLRLM_HGLRE,
    "GLRLM_SRLGLE" := GLRLM_SRLGLE,
    "GLRLM_SRHGLE" := GLRLM_SRHGLE,
    "GLRLM_LRLGLE" := GLRLM_LRLGLE,
    "GLRLM_LRHGLE" := GLRLM_LRHGLE,
    "GLSZM_SAE" := GLSZM_SAE,
    "GLSZM_LAE" := GLSZM_LAE,
    "GLSZM_GLN" := GLSZM_GLN,
    "GLSZM_GLNN" := GLSZM_GLNN,
    "GLSZM_SZN" := GLSZM_SZN,
    "GLSZM_SZNN" := GLSZM_SZNN,
    "GLSZM_ZP" := GLSZM_ZP,
    "GLSZM_GLV" := GLSZM_GLV,
    "GLSZM_ZV" := GLSZM_ZV,
    "GLSZM_ZE" := GLSZM_ZE,
    "GLSZM_LGLZE" := GLSZM_LGLZE,
    "GLSZM_HGLZE" := GLSZM_HGLZE,
    "GLSZM_SALGLE" := GLSZM_SALGLE,
    "GLSZM_SAHGLE" := GLSZM_SAHGLE,
    "GLSZM_LALGLE" := GLSZM_LALGLE,
    "GLSZM_LAHGLE" := GLSZM_LAHGLE,
    "GLDM_SDE" := GLDM_SDE,
    "GLDM_LDE" := GLDM_LDE,
    "GLDM_GLN" := GLDM_GLN,
    "GLDM_DN" := GLDM_DN,
    "GLDM_DNN" := GLDM_DNN,
    "GLDM_GLV" := GLDM_GLV,
    "GLDM_DV" := GLDM_DV,
    "GLDM_DE" := GLDM_DE,
    "GLDM_LGLE" := GLDM_LGLE,
    "GLDM_HGLE" := GLDM_HGLE,
    "GLDM_SDLGLE" := GLDM_SDLGLE,
    "GLDM_SDHGLE" := GLDM_SDHGLE,
    "GLDM_LDLGLE" := GLDM_LDLGLE,
    "GLDM_LDHGLE" := GLDM_LDHGLE,
    "NGTDM_COARSENESS" := NGTDM_COARSENESS,
    "NGTDM_CONTRAST" := NGTDM_CONTRAST,
    "NGTDM_BUSYNESS" := NGTDM_BUSYNESS,
    "NGTDM_COMPLEXITY" := NGTDM_COMPLEXITY,
    "NGTDM_STRENGTH" := NGTDM_STRENGTH
  ]
}
